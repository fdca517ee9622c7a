/**
 Refresh-token rotation: a single-use exchange raced by several callers, with a short replay cache for one coordinator.

 Tokens stand for their hashes and cached results for their encryption, both being injective; new tokens are fresh.
 A rotation is two steps, because other calls may commit between its lookup and its guarded update.
 */
module RefreshRotation {
  import opened Basics

  datatype Session = Session(user: Id, token: Id, refresh: Id, expiresAt: int, refreshExpiresAt: int, revoked: bool)
  /** What a rotation returns. */
  datatype Rotated = Rotated(session: Id, token: Id, refresh: Id)
  datatype Entry = Entry(result: Rotated, expiresAt: int)
  /** The sessions, and the rotation results by presented token and coordinator. */
  datatype Db = Db(sessions: map<Id, Session>, results: map<(Id, Id), Entry>)
  datatype Lifetimes = Lifetimes(session: int, refresh: int)

  const REPLAY_MILLIS := 5000

  // ----- the statements

  function Find(db: Db, presented: Id, coordinator: Id, now: int): Option<Rotated> {
    if (presented, coordinator) in db.results && db.results[(presented, coordinator)].expiresAt > now
    then Some(db.results[(presented, coordinator)].result)
    else None
  }

  /** Drops expired results, then upserts this one. */
  function Save(db: Db, presented: Id, coordinator: Id, result: Rotated, now: int): Db {
    var live := map k | k in db.results && db.results[k].expiresAt > now :: db.results[k];
    db.(results := live[(presented, coordinator) := Entry(result, now + REPLAY_MILLIS)])
  }

  /** A session that accepts the refresh token now. */
  predicate Accepts(db: Db, id: Id, presented: Id, now: int) {
    id in db.sessions && db.sessions[id].refresh == presented && !db.sessions[id].revoked
    && db.sessions[id].refreshExpiresAt > now
  }

  function Replaced(session: Session, token: Id, refresh: Id, now: int, ttl: Lifetimes): Session {
    session.(token := token, refresh := refresh, expiresAt := now + ttl.session, refreshExpiresAt := now + ttl.refresh)
  }

  /** The guarded update and, for a coordinator, the saved result: one transaction. */
  function Exchange(
      db: Db, id: Id, presented: Id, coordinator: Option<Id>, token: Id, refresh: Id, now: int, ttl: Lifetimes): Db
  {
    if !Accepts(db, id, presented, now) then db
    else
      var updated := db.(sessions := db.sessions[id := Replaced(db.sessions[id], token, refresh, now, ttl)]);
      if coordinator.Some? then Save(updated, presented, coordinator.value, Rotated(id, token, refresh), now)
      else updated
  }

  function Create(db: Db, id: Id, user: Id, token: Id, refresh: Id, now: int, ttl: Lifetimes): Db {
    db.(sessions := db.sessions[id := Session(user, token, refresh, now + ttl.session, now + ttl.refresh, false)])
  }

  function Revoke(db: Db, id: Id): Db {
    if id in db.sessions then db.(sessions := db.sessions[id := db.sessions[id].(revoked := true)]) else db
  }

  function RevokeUser(db: Db, user: Id): Db {
    db.(sessions := map id | id in db.sessions ::
          if db.sessions[id].user == user then db.sessions[id].(revoked := true) else db.sessions[id])
  }

  /** The session a session token opens. */
  predicate Opens(db: Db, id: Id, token: Id, now: int) {
    id in db.sessions && db.sessions[id].token == token && !db.sessions[id].revoked && db.sessions[id].expiresAt > now
  }

  /** From its saving on, a result is found for its own token and coordinator until it expires; nothing else changes. */
  lemma SavedIsFound(db: Db, presented: Id, coordinator: Id, result: Rotated, now: int, p: Id, c: Id, at: int)
    requires at >= now
    ensures Find(Save(db, presented, coordinator, result, now), p, c, at) ==
              if (p, c) != (presented, coordinator) then Find(db, p, c, at)
              else if at < now + REPLAY_MILLIS then Some(result)
              else None
  {
    var key := (p, c);
    if key in db.results && db.results[key].expiresAt <= now { assert Find(db, p, c, at) == None; }
  }

  /** A new session is opened by its token and refreshed by its refresh token alone, each for its lifetime. */
  lemma CreatedTokens(db: Db, id: Id, user: Id, token: Id, refresh: Id, now: int, ttl: Lifetimes, other: Id, at: int)
    requires id !in db.sessions
    ensures var db' := Create(db, id, user, token, refresh, now, ttl);
            && id in db'.sessions && db'.sessions[id].user == user && db'.results == db.results
            && (Opens(db', id, other, at) <==> other == token && at < now + ttl.session)
            && (Accepts(db', id, other, at) <==> other == refresh && at < now + ttl.refresh)
            && forall s :: s in db.sessions ==> s in db'.sessions && db'.sessions[s] == db.sessions[s]
  {
  }

  /** Signing out ends that session, or all of that user's, for every token, and no other. */
  lemma RevokedTokens(db: Db, id: Id, user: Id, token: Id, at: int)
    ensures !Opens(Revoke(db, id), id, token, at) && !Accepts(Revoke(db, id), id, token, at)
    ensures forall s: Id :: s != id ==> (s in Revoke(db, id).sessions <==> s in db.sessions)
                                         && (s in db.sessions ==> Revoke(db, id).sessions[s] == db.sessions[s])
    ensures forall s :: s in db.sessions && db.sessions[s].user == user ==>
              !Opens(RevokeUser(db, user), s, token, at) && !Accepts(RevokeUser(db, user), s, token, at)
    ensures forall s :: s in db.sessions && db.sessions[s].user != user ==>
              s in RevokeUser(db, user).sessions && RevokeUser(db, user).sessions[s] == db.sessions[s]
    ensures RevokeUser(db, user).results == Revoke(db, id).results == db.results
  {
  }

  /**
   What an exchange leaves: the new tokens open and refresh the session for their lifetimes, and the old ones do nothing
   any more unless they are the new ones.
   */
  lemma ExchangedTokens(
      db: Db, id: Id, presented: Id, coordinator: Option<Id>, token: Id, refresh: Id, now: int, ttl: Lifetimes, at: int)
    requires Accepts(db, id, presented, now)
    ensures var db' := Exchange(db, id, presented, coordinator, token, refresh, now, ttl);
            && (Opens(db', id, token, at) <==> at < now + ttl.session)
            && (Accepts(db', id, refresh, at) <==> at < now + ttl.refresh)
            && (db.sessions[id].token != token ==> !Opens(db', id, db.sessions[id].token, at))
            && (presented != refresh ==> !Accepts(db', id, presented, at))
            && forall other: Id :: other != id ==>
                 (other in db'.sessions <==> other in db.sessions)
                 && (other in db.sessions ==> db'.sessions[other] == db.sessions[other])
  {
    hide Save;
    if coordinator.Some? { SaveLeavesSessions(db, id, presented, coordinator.value, token, refresh, now, ttl); }
  }

  lemma SaveLeavesSessions(
      db: Db, id: Id, presented: Id, coordinator: Id, token: Id, refresh: Id, now: int, ttl: Lifetimes)
    requires Accepts(db, id, presented, now)
    ensures Exchange(db, id, presented, Some(coordinator), token, refresh, now, ttl).sessions
            == db.sessions[id := Replaced(db.sessions[id], token, refresh, now, ttl)]
  {
  }

  // ----- runs, with their history

  datatype Task = Task(presented: Id, coordinator: Option<Id>, session: Id)
  datatype Rotation = Rotation(result: Rotated, coordinator: Option<Id>, at: int)
  /** A successful call: what was presented by whom, what it got, and when. */
  datatype Answer = Answer(presented: Id, coordinator: Option<Id>, result: Rotated, at: int)

  /** `rotations` and `chains` are history: the exchange of each token, and each session's refresh tokens in order. */
  datatype Sys = Sys(
    db: Db, now: int, tasks: multiset<Task>, used: set<Id>, rotations: map<Id, Rotation>, chains: map<Id, seq<Id>>,
    answers: set<Answer>)

  datatype Step =
    | SignIn(id: Id, user: Id, token: Id, refresh: Id, now: int, ttl: Lifetimes)
    | SignOut(id: Id, now: int)
    | SignOutUser(user: Id, now: int)
    | Present(presented: Id, coordinator: Option<Id>, session: Id, now: int)
    | Commit(task: Task, token: Id, refresh: Id, now: int, ttl: Lifetimes)
    | Poll(presented: Id, poller: Id, now: int)

  /** Time does not go back, and tokens and session ids are fresh random values. */
  predicate Allowed(s: Sys, step: Step) {
    && step.now >= s.now
    && (step.SignIn? ==> step.id !in s.db.sessions && Fresh(s, step.token, step.refresh))
    && (step.Commit? ==> step.task in s.tasks && Fresh(s, step.token, step.refresh))
  }

  predicate Fresh(s: Sys, token: Id, refresh: Id) {
    token !in s.used && refresh !in s.used && token != refresh
  }

  /** A caller gets the result saved for its token and coordinator, if one is live. */
  function Replay(s: Sys, presented: Id, coordinator: Option<Id>): Sys {
    if !Saved(s, presented, coordinator) then s
    else
      var result := Find(s.db, presented, coordinator.value, s.now).value;
      s.(answers := s.answers + {Answer(presented, coordinator, result, s.now)})
  }

  predicate Saved(s: Sys, presented: Id, coordinator: Option<Id>) {
    coordinator.Some? && Find(s.db, presented, coordinator.value, s.now).Some?
  }

  function Exchanged(s: Sys, task: Task, token: Id, refresh: Id, ttl: Lifetimes): Sys {
    var result := Rotated(task.session, token, refresh);
    s.(db := Exchange(s.db, task.session, task.presented, task.coordinator, token, refresh, s.now, ttl),
       rotations := s.rotations[task.presented := Rotation(result, task.coordinator, s.now)],
       chains := s.chains[task.session := Chain(s, task.session) + [refresh]],
       answers := s.answers + {Answer(task.presented, task.coordinator, result, s.now)})
  }

  function Next(s: Sys, step: Step): Sys {
    var s := s.(now := step.now);
    match step
    case SignIn(id, user, token, refresh, now, ttl) =>
      s.(db := Create(s.db, id, user, token, refresh, now, ttl), used := s.used + {token, refresh},
         chains := s.chains[id := [refresh]])
    case SignOut(id, _) => s.(db := Revoke(s.db, id))
    case SignOutUser(user, _) => s.(db := RevokeUser(s.db, user))
    case Present(presented, coordinator, session, now) =>
      if Saved(s, presented, coordinator) then Replay(s, presented, coordinator)
      else if Accepts(s.db, session, presented, now)
      then s.(tasks := s.tasks + multiset{Task(presented, coordinator, session)})
      else s
    case Commit(task, token, refresh, now, ttl) =>
      var s := s.(tasks := s.tasks - multiset{task}, used := s.used + {token, refresh});
      if Accepts(s.db, task.session, task.presented, now) then Exchanged(s, task, token, refresh, ttl)
      else Replay(s, task.presented, task.coordinator)
    case Poll(presented, coordinator, _) => Replay(s, presented, Some(coordinator))
  }

  /** Signing out is a revocation. */
  lemma SignOutRevokes(s: Sys, id: Id, user: Id, now: int, token: Id, at: int)
    ensures !Opens(Next(s, SignOut(id, now)).db, id, token, at) && !Accepts(Next(s, SignOut(id, now)).db, id, token, at)
    ensures forall i :: i in s.db.sessions && s.db.sessions[i].user == user ==>
              && !Opens(Next(s, SignOutUser(user, now)).db, i, token, at)
              && !Accepts(Next(s, SignOutUser(user, now)).db, i, token, at)
  {
    RevokedTokens(s.db, id, user, token, at);
  }

  /** A call is in flight from being accepted without a saved result until its commit, which answers if it exchanges. */
  lemma CallsInFlight(s: Sys, task: Task, token: Id, refresh: Id, now: int, ttl: Lifetimes)
    ensures var db := s.db;
            var saved := task.coordinator.Some? && Find(db, task.presented, task.coordinator.value, now).Some?;
            Next(s, Present(task.presented, task.coordinator, task.session, now)).tasks
            == if !saved && Accepts(db, task.session, task.presented, now) then s.tasks + multiset{task} else s.tasks
    ensures Next(s, Commit(task, token, refresh, now, ttl)).tasks == s.tasks - multiset{task}
    ensures Accepts(s.db, task.session, task.presented, now) ==>
              var s', result := Next(s, Commit(task, token, refresh, now, ttl)), Rotated(task.session, token, refresh);
              && s'.answers == s.answers + {Answer(task.presented, task.coordinator, result, now)}
              && s'.rotations == s.rotations[task.presented := Rotation(result, task.coordinator, now)]
              && task.session in s'.chains && s'.chains[task.session] == Chain(s, task.session) + [refresh]
  {
    hide Find, Accepts, Save;
  }

  function Chain(s: Sys, id: Id): seq<Id> {
    if id in s.chains then s.chains[id] else []
  }

  function Run(s: Sys, steps: seq<Step>): Sys
    decreases |steps|
  {
    if steps == [] then s else Run(Next(s, steps[0]), steps[1..])
  }

  predicate AllowedRun(s: Sys, steps: seq<Step>)
    decreases |steps|
  {
    steps != [] ==> Allowed(s, steps[0]) && AllowedRun(Next(s, steps[0]), steps[1..])
  }

  const EMPTY := Sys(Db(map[], map[]), 0, multiset{}, {}, map[], map[], {})

  // ----- what holds in every reachable state

  predicate Last(chain: seq<Id>, token: Id) {
    chain != [] && chain[|chain| - 1] == token
  }

  /**
   A session's refresh tokens form one chain: each was exchanged for the next one, exactly once and for this session;
   the last one was not exchanged, and it is the one the session stores.
   */
  ghost predicate ChainOk(s: Sys, id: Id) {
    (id in s.db.sessions <==> id in s.chains)
    && (id in s.chains ==>
          && Last(s.chains[id], s.db.sessions[id].refresh)
          && (forall i :: 0 <= i < |s.chains[id]| ==> s.chains[id][i] in s.used)
          && (forall i, j :: 0 <= i < j < |s.chains[id]| ==> s.chains[id][i] != s.chains[id][j])
          && (forall i :: 0 <= i < |s.chains[id]| - 1 ==> Linked(s, id, s.chains[id][i], s.chains[id][i + 1]))
          && s.chains[id][|s.chains[id]| - 1] !in s.rotations)
  }

  predicate Linked(s: Sys, id: Id, token: Id, next: Id) {
    token in s.rotations && s.rotations[token].result.session == id && s.rotations[token].result.refresh == next
  }

  /** No token belongs to two sessions. */
  ghost predicate Apart(s: Sys, a: Id, b: Id) {
    a in s.chains && b in s.chains && a != b ==> forall i, j :: 0 <= i < |s.chains[a]| && 0 <= j < |s.chains[b]| ==>
      s.chains[a][i] != s.chains[b][j]
  }

  /** A cached result is the one rotation of its token, kept for that rotation's coordinator. */
  predicate EntryOk(s: Sys, key: (Id, Id)) {
    key in s.db.results ==>
      && key.0 in s.rotations && s.rotations[key.0].coordinator == Some(key.1)
      && s.db.results[key] == Entry(s.rotations[key.0].result, s.rotations[key.0].at + REPLAY_MILLIS)
  }

  /** A coordinator's rotation stays saved while it is live. */
  predicate Kept(s: Sys, token: Id) {
    token in s.rotations && s.rotations[token].coordinator.Some? && s.now < s.rotations[token].at + REPLAY_MILLIS ==>
      (token, s.rotations[token].coordinator.value) in s.db.results
  }

  /**
   A successful call returns its token's one rotation, to the rotation's coordinator, at once or within the lifetime.
   */
  predicate AnswerOk(s: Sys, a: Answer) {
    && a.presented in s.rotations && a.result == s.rotations[a.presented].result
    && a.coordinator == s.rotations[a.presented].coordinator
    && s.rotations[a.presented].at <= a.at < s.rotations[a.presented].at + REPLAY_MILLIS
    && (a.coordinator.None? ==> a.at == s.rotations[a.presented].at)
  }

  ghost predicate Inv(s: Sys) {
    && (forall id: Id :: ChainOk(s, id))
    && (forall a: Id, b: Id :: Apart(s, a, b))
    && (forall r :: r in s.rotations ==> r in s.used && s.rotations[r].at <= s.now)
    && (forall key: (Id, Id) :: EntryOk(s, key))
    && (forall token: Id :: Kept(s, token))
    && (forall a :: a in s.answers ==> AnswerOk(s, a))
  }

  /** The token a session accepts was never exchanged before. */
  lemma AcceptedIsUnused(s: Sys, id: Id, presented: Id, now: int)
    requires Inv(s) && Accepts(s.db, id, presented, now)
    ensures presented !in s.rotations && presented in s.used && id in s.chains && Last(s.chains[id], presented)
  {
    assert ChainOk(s, id);
  }

  lemma CommitKeepsChains(s: Sys, step: Step)
    requires Inv(s) && Allowed(s, step) && step.Commit?
    ensures forall id: Id :: ChainOk(Next(s, step), id)
    ensures forall a: Id, b: Id :: Apart(Next(s, step), a, b)
  {
    hide Save, Find;
    var s', task := Next(s, step), step.task;
    if Accepts(s.db, task.session, task.presented, step.now) {
      AcceptedIsUnused(s, task.session, task.presented, step.now);
      forall id: Id ensures ChainOk(s', id) {
        if id != task.session { assert Apart(s, task.session, id); }
        ExchangeKeepsChain(s, step, id);
      }
      forall a: Id, b: Id ensures Apart(s', a, b) {
        assert Apart(s, a, b) && ChainOk(s, a) && ChainOk(s, b);
      }
    } else {
      forall id: Id ensures ChainOk(s', id) { assert ChainOk(s, id); }
      forall a: Id, b: Id ensures Apart(s', a, b) { assert Apart(s, a, b); }
    }
  }

  lemma ExchangeKeepsChain(s: Sys, step: Step, id: Id)
    requires Inv(s) && Allowed(s, step) && step.Commit?
    requires Accepts(s.db, step.task.session, step.task.presented, step.now)
    ensures ChainOk(Next(s, step), id)
  {
    hide Save, Find;
    var s', task := Next(s, step), step.task;
    AcceptedIsUnused(s, task.session, task.presented, step.now);
    ExchangeStores(s.db, task, step.token, step.refresh, step.now, step.ttl);
    assert s'.db.sessions == s.db.sessions[task.session := s'.db.sessions[task.session]]
           && s'.db.sessions[task.session].refresh == step.refresh;
    assert ChainOk(s, id);
    if id in s.chains && id != task.session {
      assert Apart(s, task.session, id);
      assert forall i :: 0 <= i < |s.chains[id]| - 1 ==> Linked(s, id, s.chains[id][i], s.chains[id][i + 1]);
    }
  }

  lemma ExchangeStores(db: Db, task: Task, token: Id, refresh: Id, now: int, ttl: Lifetimes)
    requires Accepts(db, task.session, task.presented, now)
    ensures var db' := Exchange(db, task.session, task.presented, task.coordinator, token, refresh, now, ttl);
            db'.sessions == db.sessions[task.session := Replaced(db.sessions[task.session], token, refresh, now, ttl)]
  {
  }

  lemma OtherKeepsChains(s: Sys, step: Step)
    requires Inv(s) && Allowed(s, step) && !step.Commit?
    ensures forall id: Id :: ChainOk(Next(s, step), id)
    ensures forall a: Id, b: Id :: Apart(Next(s, step), a, b)
  {
    var s' := Next(s, step);
    forall id: Id ensures ChainOk(s', id) { OtherKeepsChain(s, step, id); }
    forall a: Id, b: Id ensures Apart(s', a, b) {
      assert Apart(s, a, b) && ChainOk(s, a) && ChainOk(s, b);
    }
  }

  lemma OtherKeepsChain(s: Sys, step: Step, id: Id)
    requires ChainOk(s, id) && Allowed(s, step) && !step.Commit? && forall r :: r in s.rotations ==> r in s.used
    ensures ChainOk(Next(s, step), id)
  {
    hide Find, Accepts;
    var s' := Next(s, step);
    if id in s.chains {
      assert forall i :: 0 <= i < |s.chains[id]| - 1 ==> Linked(s, id, s.chains[id][i], s.chains[id][i + 1]);
      assert s'.chains[id] == s.chains[id];
      assert s'.db.sessions[id].refresh == s.db.sessions[id].refresh;
    }
  }

  /** A step that exchanges nothing leaves the saved results. */
  lemma ReplayLeaves(s: Sys, step: Step)
    requires step.Commit? ==> !Accepts(s.db, step.task.session, step.task.presented, step.now)
    ensures Next(s, step).rotations == s.rotations && Next(s, step).db.results == s.db.results
            && Next(s, step).now == step.now
  {
    hide Accepts, Find, Saved;
  }

  /** What such a step answers was found among them. */
  lemma ReplayFinds(s: Sys, step: Step, a: Answer)
    requires step.Commit? ==> !Accepts(s.db, step.task.session, step.task.presented, step.now)
    requires a in Next(s, step).answers && a !in s.answers
    ensures a.at == step.now && a.coordinator.Some?
            && Find(s.db, a.presented, a.coordinator.value, a.at) == Some(a.result)
  {
    hide Accepts, Find;
  }

  lemma FoundIsOk(s: Sys, a: Answer)
    requires a.coordinator.Some? && Find(s.db, a.presented, a.coordinator.value, a.at) == Some(a.result)
    requires EntryOk(s, (a.presented, a.coordinator.value))
             && (a.presented in s.rotations ==> s.rotations[a.presented].at <= a.at)
    ensures AnswerOk(s, a)
  {
  }

  /** Cached results and answers after a step that exchanges nothing. */
  lemma ReplayKeeps(s: Sys, step: Step)
    requires Inv(s) && Allowed(s, step)
    requires step.Commit? ==> !Accepts(s.db, step.task.session, step.task.presented, step.now)
    ensures forall key: (Id, Id) :: EntryOk(Next(s, step), key)
    ensures forall a :: a in Next(s, step).answers ==> AnswerOk(Next(s, step), a)
  {
    hide Next, Find, Accepts;
    var s' := Next(s, step);
    ReplayLeaves(s, step);
    forall key: (Id, Id) ensures EntryOk(s', key) { assert EntryOk(s, key); }
    forall a | a in s'.answers ensures AnswerOk(s', a) {
      if a in s.answers {
        assert AnswerOk(s, a);
      } else {
        ReplayFinds(s, step, a);
        assert EntryOk(s, (a.presented, a.coordinator.value));
        FoundIsOk(s, a);
      }
    }
  }

  lemma ExchangeKeepsResults(s: Sys, step: Step)
    requires Inv(s) && Allowed(s, step) && step.Commit?
    requires Accepts(s.db, step.task.session, step.task.presented, step.now)
    ensures forall key: (Id, Id) :: EntryOk(Next(s, step), key)
    ensures forall a :: a in Next(s, step).answers ==> AnswerOk(Next(s, step), a)
  {
    var s', task := Next(s, step), step.task;
    AcceptedIsUnused(s, task.session, task.presented, step.now);
    forall key: (Id, Id) ensures EntryOk(s', key) { assert EntryOk(s, key); }
    forall a | a in s'.answers ensures AnswerOk(s', a) {
      if a in s.answers { assert AnswerOk(s, a); }
    }
  }

  lemma StepKeepsSaved(s: Sys, step: Step, token: Id)
    requires Inv(s) && Allowed(s, step)
    ensures Kept(Next(s, step), token)
  {
    hide ChainOk, Apart, Find;
    assert Kept(s, token);
    if step.Commit? && Accepts(s.db, step.task.session, step.task.presented, step.now) {
      if token in s.rotations && token != step.task.presented && s.rotations[token].coordinator.Some? {
        assert EntryOk(s, (token, s.rotations[token].coordinator.value));
      }
    } else {
      ReplayLeaves(s, step);
    }
  }

  lemma StepKeeps(s: Sys, step: Step)
    requires Inv(s) && Allowed(s, step)
    ensures Inv(Next(s, step))
  {
    if step.Commit? { CommitKeepsChains(s, step); } else { OtherKeepsChains(s, step); }
    if step.Commit? && Accepts(s.db, step.task.session, step.task.presented, step.now) {
      AcceptedIsUnused(s, step.task.session, step.task.presented, step.now);
      ExchangeKeepsResults(s, step);
    } else {
      ReplayKeeps(s, step);
    }
    forall token: Id ensures Kept(Next(s, step), token) { StepKeepsSaved(s, step, token); }
  }

  lemma {:induction false} EveryRunKeeps(s: Sys, steps: seq<Step>)
    requires Inv(s) && AllowedRun(s, steps)
    ensures Inv(Run(s, steps))
    decreases |steps|
  {
    if steps != [] {
      StepKeeps(s, steps[0]);
      EveryRunKeeps(Next(s, steps[0]), steps[1..]);
    }
  }

  // ----- main results

  /** Whether a step exchanges `token`. */
  predicate Exchanges(s: Sys, step: Step, token: Id) {
    step.Commit? && step.task.presented == token && Accepts(s.db, step.task.session, token, step.now)
  }

  function ExchangeCount(s: Sys, steps: seq<Step>, token: Id): nat
    decreases |steps|
  {
    if steps == [] then 0
    else (if Exchanges(s, steps[0], token) then 1 else 0) + ExchangeCount(Next(s, steps[0]), steps[1..], token)
  }

  /** Over any run a refresh token is exchanged at most once, and not at all once it has been. */
  lemma {:induction false} ExchangedAtMostOnce(s: Sys, steps: seq<Step>, token: Id)
    requires Inv(s) && AllowedRun(s, steps)
    ensures ExchangeCount(s, steps, token) <= if token in s.rotations then 0 else 1
    decreases |steps|
  {
    if steps != [] {
      StepKeeps(s, steps[0]);
      if Exchanges(s, steps[0], token) { AcceptedIsUnused(s, steps[0].task.session, token, steps[0].now); }
      ExchangedAtMostOnce(Next(s, steps[0]), steps[1..], token);
    }
  }

  /** Any two successful calls that presented the same token got the same new tokens. */
  lemma SameTokenSameAnswer(steps: seq<Step>, a: Answer, b: Answer)
    requires AllowedRun(EMPTY, steps)
    requires a in Run(EMPTY, steps).answers && b in Run(EMPTY, steps).answers && a.presented == b.presented
    ensures a.result == b.result && a.coordinator == b.coordinator
    ensures -REPLAY_MILLIS < a.at - b.at < REPLAY_MILLIS && (a.coordinator.None? ==> a.at == b.at)
  {
    EveryRunKeeps(EMPTY, steps);
    var s := Run(EMPTY, steps);
    assert AnswerOk(s, a) && AnswerOk(s, b);
  }

  /** At any later time a coordinator finds a token's saved result exactly while it is live and its own. */
  lemma ReplayedExactlyWhen(s: Sys, presented: Id, coordinator: Id, now: int)
    requires Inv(s) && now >= s.now
    ensures Find(s.db, presented, coordinator, now).Some? <==>
              presented in s.rotations && s.rotations[presented].coordinator == Some(coordinator)
              && now < s.rotations[presented].at + REPLAY_MILLIS
    ensures Find(s.db, presented, coordinator, now).Some? ==>
              Find(s.db, presented, coordinator, now).value == s.rotations[presented].result
  {
    assert EntryOk(s, (presented, coordinator)) && Kept(s, presented);
  }

  /**
   Two callers that both saw the token accepted: the second commit changes no session, and it gets the first one's
   tokens exactly when it names the same coordinator within the lifetime; else it gets nothing.
   */
  lemma SecondCallerGetsTheSame(s: Sys, step: Step)
    requires Inv(s) && Allowed(s, step) && step.Commit? && step.task.presented in s.rotations
    ensures Next(s, step).db == s.db
    ensures var r := s.rotations[step.task.presented];
            Next(s, step).answers == s.answers
            + if r.coordinator.Some? && step.task.coordinator == r.coordinator && step.now < r.at + REPLAY_MILLIS
              then {Answer(step.task.presented, r.coordinator, r.result, step.now)} else {}
  {
    var task := step.task;
    if Accepts(s.db, task.session, task.presented, step.now) {
      AcceptedIsUnused(s, task.session, task.presented, step.now);
      assert false;
    }
    if task.coordinator.Some? { ReplayedExactlyWhen(s, task.presented, task.coordinator.value, step.now); }
  }

  /** Equal callers in flight are counted apart: each may commit, in any order and at any later time. */
  lemma EqualCallersRace(s: Sys, first: Step, token: Id, refresh: Id, now: int, ttl: Lifetimes)
    requires Inv(s) && Allowed(s, first) && first.Commit? && s.tasks[first.task] >= 2
    requires Accepts(s.db, first.task.session, first.task.presented, first.now)
    requires now >= first.now && Fresh(Next(s, first), token, refresh)
    ensures var s', second := Next(s, first), Commit(first.task, token, refresh, now, ttl);
            var won := Rotated(first.task.session, first.token, first.refresh);
            && Allowed(s', second) && Next(s', second).db == s'.db
            && Next(s', second).answers == s'.answers
               + if first.task.coordinator.Some? && now < first.now + REPLAY_MILLIS
                 then {Answer(first.task.presented, first.task.coordinator, won, now)} else {}
  {
    StepKeeps(s, first);
    SecondCallerGetsTheSame(Next(s, first), Commit(first.task, token, refresh, now, ttl));
    hide Save, Find, Accepts;
  }

  /** Of a session's tokens only the last is ever accepted, and no other session accepts any of them. */
  lemma OnlyTheLastIsAccepted(steps: seq<Step>, id: Id, other: Id, i: nat, now: int)
    requires AllowedRun(EMPTY, steps)
    requires id in Run(EMPTY, steps).chains && i < |Run(EMPTY, steps).chains[id]|
    requires Accepts(Run(EMPTY, steps).db, other, Run(EMPTY, steps).chains[id][i], now)
    ensures other == id && i == |Run(EMPTY, steps).chains[id]| - 1
  {
    EveryRunKeeps(EMPTY, steps);
    var s := Run(EMPTY, steps);
    assert ChainOk(s, id) && ChainOk(s, other) && Apart(s, id, other);
  }

  /** A revoked session stays so, its chain does not grow, and its tokens open and refresh nothing. */
  lemma RevokedStays(s: Sys, step: Step, id: Id)
    requires Allowed(s, step) && id in s.db.sessions && s.db.sessions[id].revoked
    ensures id in Next(s, step).db.sessions && Next(s, step).db.sessions[id].revoked
    ensures Chain(Next(s, step), id) == Chain(s, id)
  {
    hide Find, Opens;
    var s' := Next(s, step);
    if step.Commit? && Accepts(s.db, step.task.session, step.task.presented, step.now) {
      ExchangeStores(s.db, step.task, step.token, step.refresh, step.now, step.ttl);
    } else {
      assert Chain(s', id) == Chain(s, id);
    }
  }

  /** After a revocation the session's chain never grows and its tokens open and refresh nothing. */
  lemma {:induction false} NothingAfterRevocation(s: Sys, steps: seq<Step>, id: Id, token: Id, now: int)
    requires AllowedRun(s, steps)
    requires id in s.db.sessions && s.db.sessions[id].revoked
    ensures Chain(Run(s, steps), id) == Chain(s, id)
    ensures !Accepts(Run(s, steps).db, id, token, now) && !Opens(Run(s, steps).db, id, token, now)
    decreases |steps|
  {
    hide Next, Chain;
    if steps != [] {
      RevokedStays(s, steps[0], id);
      NothingAfterRevocation(Next(s, steps[0]), steps[1..], id, token, now);
    }
  }

  // ----- the service

  class AuthService {
    var sessions: map<Id, Session>
    var results: map<(Id, Id), Entry>

    function State(): Db
      reads this
    {
      Db(sessions, results)
    }

    constructor ()
      ensures State() == Db(map[], map[])
    {
      sessions, results := map[], map[];
    }

    method FindRefreshRotationResult(presented: Id, coordinator: Id, now: int) returns (result: Option<Rotated>)
      ensures result == Find(State(), presented, coordinator, now)
    {
      result := None;
      if (presented, coordinator) in results {
        var entry := results[(presented, coordinator)];
        if entry.expiresAt > now { result := Some(entry.result); }
      }
    }

    method SaveRefreshRotationResult(presented: Id, coordinator: Id, result: Rotated, now: int)
      modifies this`results
      ensures State() == Save(old(State()), presented, coordinator, result, now)
    {
      results := map k | k in results && results[k].expiresAt > now :: results[k];
      results := results[(presented, coordinator) := Entry(result, now + REPLAY_MILLIS)];
    }

    /** The second half of a rotation: the guarded update, then the saved result or the one another caller saved. */
    method CommitRotation(task: Task, token: Id, refresh: Id, now: int, ttl: Lifetimes)
      returns (result: Option<Rotated>)
      modifies this
      ensures State()
              == Exchange(old(State()), task.session, task.presented, task.coordinator, token, refresh, now, ttl)
      ensures result ==
              if Accepts(old(State()), task.session, task.presented, now)
              then Some(Rotated(task.session, token, refresh))
              else if task.coordinator.Some? then Find(old(State()), task.presented, task.coordinator.value, now)
              else None
    {
      var id := task.session;
      if id in sessions && sessions[id].refresh == task.presented && !sessions[id].revoked
         && sessions[id].refreshExpiresAt > now
      {
        sessions := sessions[id := Replaced(sessions[id], token, refresh, now, ttl)];
        var rotated := Rotated(id, token, refresh);
        if task.coordinator.Some? {
          SaveRefreshRotationResult(task.presented, task.coordinator.value, rotated, now);
        }
        return Some(rotated);
      }
      if task.coordinator.Some? {
        result := FindRefreshRotationResult(task.presented, task.coordinator.value, now);
      } else {
        result := None;
      }
    }

    /** The first half: a saved result of this coordinator, or else the session that accepts the token. */
    method StartRotation(presented: Id, coordinator: Option<Id>, now: int)
      returns (saved: Option<Rotated>, task: Option<Task>)
      ensures saved == if coordinator.Some? then Find(State(), presented, coordinator.value, now) else None
      ensures task.Some? <==> saved.None? && exists id :: Accepts(State(), id, presented, now)
      ensures task.Some? ==> task.value == Task(presented, coordinator, task.value.session)
                             && Accepts(State(), task.value.session, presented, now)
    {
      saved, task := None, None;
      if coordinator.Some? {
        saved := FindRefreshRotationResult(presented, coordinator.value, now);
        if saved.Some? {
          return;
        }
      }
      if id :| id in sessions && Accepts(State(), id, presented, now) {
        task := Some(Task(presented, coordinator, id));
      }
    }

    /**
     A call that nothing interrupts: a saved result, one exchange, or the invalid-token error after asking four more
     times for a saved result.
     */
    method RotateRefreshToken(presented: Id, coordinator: Option<Id>, token: Id, refresh: Id, now: int, ttl: Lifetimes)
      returns (result: Option<Rotated>)
      modifies this
      ensures var before := old(State());
              var saved := if coordinator.Some? then Find(before, presented, coordinator.value, now) else None;
              if saved.Some? then result == saved && State() == before
              else if result.Some? then
                var id := result.value.session;
                Accepts(before, id, presented, now) && result == Some(Rotated(id, token, refresh))
                && State() == Exchange(before, id, presented, coordinator, token, refresh, now, ttl)
              else State() == before && forall id :: !Accepts(before, id, presented, now)
      ensures var saved := coordinator.Some? && (presented, coordinator.value) in old(results)
                           && old(results)[(presented, coordinator.value)].expiresAt > now;
              && (saved ==> result == Some(old(results)[(presented, coordinator.value)].result)
                            && sessions == old(sessions) && results == old(results))
              && (!saved && result.Some? ==>
                    var id := result.value.session;
                    && result.value.token == token && result.value.refresh == refresh
                    && id in old(sessions) && id in sessions && old(sessions)[id].refresh == presented
                    && !old(sessions)[id].revoked && old(sessions)[id].refreshExpiresAt > now
                    && sessions[id].token == token && sessions[id].refresh == refresh
                    && sessions[id].expiresAt == now + ttl.session && sessions[id].refreshExpiresAt == now + ttl.refresh
                    && sessions[id].user == old(sessions)[id].user && !sessions[id].revoked
                    && sessions.Keys == old(sessions).Keys
                    && (coordinator.Some? ==>
                          (presented, coordinator.value) in results
                          && results[(presented, coordinator.value)] == Entry(result.value, now + 5_000))
                    && forall other :: other in old(sessions) && other != id ==>
                         sessions[other] == old(sessions)[other])
              && (result.None? ==>
                    && sessions == old(sessions) && results == old(results)
                    && forall id :: id in sessions ==>
                         sessions[id].refresh != presented || sessions[id].revoked
                         || sessions[id].refreshExpiresAt <= now)
    {
      var task: Option<Task>;
      result, task := StartRotation(presented, coordinator, now);
      if result.Some? {
        return;
      }
      if task.Some? {
        ghost var id := task.value.session;
        assert Accepts(old(State()), id, presented, now);
        result := CommitRotation(task.value, token, refresh, now, ttl);
        assert result == Some(Rotated(id, token, refresh));
        return;
      }
      if coordinator.Some? {
        for attempt := 0 to 4
          invariant State() == old(State()) && result == None
        {
          var saved := FindRefreshRotationResult(presented, coordinator.value, now);
          if saved.Some? {
            return saved;
          }
        }
      }
      assert forall id :: id in sessions ==> !Accepts(State(), id, presented, now);
    }
  }
}
