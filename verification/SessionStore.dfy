/** The bounded, pruned session store, kept in step with a log that forgets nothing. */
module SessionStore {
  import opened Limiters
  import opened Tokens
  import opened Wrappers

  const SESSION_LIFETIME := 30 * 24 * 60 * 60 * SECOND
  const MAX_SESSIONS := 1024

  datatype Session = Session(csrfToken: string, expiresAt: Instant)

  datatype SessionError = EntropyFailure | TooManySessions | IdentifierCollision

  /** What happened under the lock, in lock order; samples are taken before and may go backwards. */
  datatype Event = Sampled(now: Instant) | Created(id: string, session: Session) | Revoked(id: string)

  /** The session an unpruned reading of the log gives an identifier. */
  function Live(log: seq<Event>, id: string): Option<Session> {
    if log == [] then None
    else
      var before := Live(log[..|log| - 1], id);
      match log[|log| - 1]
      case Sampled(now) => if before.Some? && before.value.expiresAt > now then before else None
      case Created(created, session) => if created == id then Some(session) else before
      case Revoked(revoked) => if revoked == id then None else before
  }

  /** An identifier is only ever given to a new session while no live session has it. */
  ghost predicate WellFormed(log: seq<Event>) {
    forall i | 0 <= i < |log| && log[i].Created? :: Live(log[..i], log[i].id).None?
  }

  /** A revocation, or a sample at or after the deadline. */
  predicate Ends(event: Event, id: string, session: Session) {
    event == Revoked(id) || (event.Sampled? && session.expiresAt <= event.now)
  }

  /** Nothing after position `i` ended the session created there. */
  predicate Survives(log: seq<Event>, i: nat, id: string, session: Session) {
    forall j | i < j < |log| :: !Ends(log[j], id, session)
  }

  /**
   * A session is found exactly when it was created, was not revoked since, and its deadline exceeds every
   * time sampled since, in whatever order the samples were taken.
   */
  lemma {:induction false} LiveIsCreatedAndSurviving(log: seq<Event>, id: string, session: Session)
    requires WellFormed(log)
    ensures Live(log, id) == Some(session) <==>
            exists i :: 0 <= i < |log| && log[i] == Created(id, session) && Survives(log, i, id, session)
  {
    if log != [] {
      var front, last := log[..|log| - 1], log[|log| - 1];
      FrontIsWellFormed(log);
      LiveIsCreatedAndSurviving(front, id, session);
      if Live(log, id) == Some(session) && last != Created(id, session) {
        var i :| 0 <= i < |front| && front[i] == Created(id, session) && Survives(front, i, id, session);
        SurvivesOneMore(log, i, id, session);
      }
      if i :| 0 <= i < |log| && log[i] == Created(id, session) && Survives(log, i, id, session) {
        if i < |front| {
          SurvivesOneMore(log, i, id, session);
        }
      }
    }
  }

  lemma SurvivesOneMore(log: seq<Event>, i: nat, id: string, session: Session)
    requires i < |log| - 1
    ensures var front, last := log[..|log| - 1], log[|log| - 1];
      front[i] == log[i] && (Survives(log, i, id, session) <==> Survives(front, i, id, session) && !Ends(last, id, session))
  {
    var front := log[..|log| - 1];
    assert forall j | i < j < |front| :: front[j] == log[j];
  }

  lemma FrontIsWellFormed(log: seq<Event>)
    requires WellFormed(log) && log != []
    ensures var front, last := log[..|log| - 1], log[|log| - 1];
      WellFormed(front) && (last.Created? ==> Live(front, last.id).None?)
  {
    var front := log[..|log| - 1];
    forall i | 0 <= i < |front| && front[i].Created? ensures Live(front[..i], front[i].id).None? {
      assert front[..i] == log[..i];
    }
  }

  lemma WellFormedAfter(log: seq<Event>, event: Event)
    requires WellFormed(log) && (event.Created? ==> Live(log, event.id).None?)
    ensures WellFormed(log + [event])
  {
    var longer := log + [event];
    forall i | 0 <= i < |longer| && longer[i].Created? ensures Live(longer[..i], longer[i].id).None? {
      assert longer[..i] == log[..i];
      assert log[..|log|] == log;
    }
  }

  lemma LiveAfter(log: seq<Event>, event: Event, id: string)
    ensures Live(log + [event], id) ==
      match event
      case Sampled(now) =>
        if Live(log, id).Some? && Live(log, id).value.expiresAt > now then Live(log, id) else None
      case Created(created, session) => if created == id then Some(session) else Live(log, id)
      case Revoked(revoked) => if revoked == id then None else Live(log, id)
  {
    assert (log + [event])[..|log|] == log;
  }

  class Sessions {
    var active: map<string, Session>
    ghost var log: seq<Event>

    ghost predicate Valid()
      reads this
    {
      && |active| <= MAX_SESSIONS && WellFormed(log)
      && (forall id :: Live(log, id) == if id in active then Some(active[id]) else None)
    }

    constructor ()
      ensures Valid() && log == []
    {
      active, log := map[], [];
    }

    /** Every operation begins here: what is over at its sample goes from the map. */
    method LockAt(now: Instant)
      requires Valid()
      modifies this
      ensures Valid() && log == old(log) + [Sampled(now)]
      ensures forall id <- active :: id in old(active) && active[id] == old(active[id])
    {
      ghost var before := active;
      active := map id | id in active && active[id].expiresAt > now :: active[id];
      forall id ensures Live(log + [Sampled(now)], id) == if id in active then Some(active[id]) else None {
        LiveAfter(log, Sampled(now), id);
      }
      WellFormedAfter(log, Sampled(now));
      log := log + [Sampled(now)];
      KeysShrink(active, before);
    }

    /** Creates a session from two random tokens, either of which may fail. */
    method CreateAt(sessionId: Option<string>, csrfToken: Option<string>, now: Instant)
        returns (result: Result<string, SessionError>)
      requires Valid()
      modifies this
      ensures Valid()
      ensures result == Err(EntropyFailure) <==> sessionId.None? || csrfToken.None?
      ensures result == Err(EntropyFailure) ==> log == old(log) && active == old(active)
      ensures result.Err? && result.error != EntropyFailure ==> log == old(log) + [Sampled(now)]
      ensures result == Err(TooManySessions) ==> |active| == MAX_SESSIONS
      ensures result == Err(IdentifierCollision) ==>
        sessionId.Some? && Live(old(log) + [Sampled(now)], sessionId.value).Some?
      ensures result.Ok? ==>
        && sessionId == Some(result.value)
        && Live(old(log) + [Sampled(now)], result.value).None?
        && log == old(log) + [Sampled(now), Created(result.value, Session(csrfToken.value, now + SESSION_LIFETIME))]
    {
      if sessionId.None? || csrfToken.None? { return Err(EntropyFailure); }
      LockAt(now);
      if |active| >= MAX_SESSIONS { return Err(TooManySessions); }
      var id := sessionId.value;
      if id in active { return Err(IdentifierCollision); }
      var session := Session(csrfToken.value, now + SESSION_LIFETIME);
      Add(id, session);
      assert log == old(log) + [Sampled(now), Created(id, session)];
      result := Ok(id);
    }

    /** Adds a session under an unused identifier, below the bound. */
    method Add(id: string, session: Session)
      requires Valid() && id !in active && |active| < MAX_SESSIONS
      modifies this
      ensures Valid() && log == old(log) + [Created(id, session)]
    {
      forall other ensures Live(log + [Created(id, session)], other)
                        == if other == id then Some(session) else Live(log, other) {
        LiveAfter(log, Created(id, session), other);
      }
      ghost var before := active;
      active := active[id := session];
      OneMoreKey(before, active, id);
      WellFormedAfter(log, Created(id, session));
      log := log + [Created(id, session)];
    }

    /** Reads the form token of a session that is live at the sampled time. */
    method CsrfAt(sessionId: string, now: Instant) returns (token: Option<string>)
      requires Valid()
      modifies this
      ensures Valid() && log == old(log) + [Sampled(now)]
      ensures token == match Live(log, sessionId) case Some(session) => Some(session.csrfToken) case None => None
    {
      LockAt(now);
      assert Live(log, sessionId) == if sessionId in active then Some(active[sessionId]) else None;
      token := if sessionId in active then Some(active[sessionId].csrfToken) else None;
    }

    /** Whether the session is live and the token is its form token; nothing is extended by asking. */
    method VerifyAt(sessionId: string, token: string, now: Instant) returns (verified: bool)
      requires Valid()
      modifies this
      ensures Valid() && log == old(log) + [Sampled(now)]
      ensures verified <==> Live(log, sessionId).Some? && Matches(Live(log, sessionId).value.csrfToken, token)
    {
      LockAt(now);
      assert Live(log, sessionId) == if sessionId in active then Some(active[sessionId]) else None;
      verified := sessionId in active && Matches(active[sessionId].csrfToken, token);
    }

    /** Revokes a live session only when its form token matches. */
    method LogoutAt(sessionId: string, token: string, now: Instant) returns (revoked: bool)
      requires Valid()
      modifies this
      ensures Valid()
      ensures var seen := old(log) + [Sampled(now)];
        && (revoked <==> Live(seen, sessionId).Some? && Matches(Live(seen, sessionId).value.csrfToken, token))
        && log == if revoked then seen + [Revoked(sessionId)] else seen
    {
      LockAt(now);
      assert Live(log, sessionId) == if sessionId in active then Some(active[sessionId]) else None;
      if !(sessionId in active && Matches(active[sessionId].csrfToken, token)) { return false; }
      forall other ensures Live(log + [Revoked(sessionId)], other)
                        == if other == sessionId then None else Live(log, other) {
        LiveAfter(log, Revoked(sessionId), other);
      }
      ghost var before := active;
      active := active - {sessionId};
      KeysShrink(active, before);
      WellFormedAfter(log, Revoked(sessionId));
      log := log + [Revoked(sessionId)];
      revoked := true;
    }
  }

  predicate NeverEnds(later: seq<Event>, id: string, session: Session) {
    forall event <- later :: !Ends(event, id, session)
  }

  /**
   * Whatever happens later, a live session stays as it was created until a sample or a revocation ends it:
   * it is still this very session exactly if none did, and until then its identifier is given to no other.
   */
  lemma {:induction false} LiveSessionsAreNeverExtended(log: seq<Event>, later: seq<Event>, id: string, session: Session)
    requires WellFormed(log + later) && Live(log, id) == Some(session)
    ensures NeverEnds(later, id, session) <==> Live(log + later, id) == Some(session) && Created(id, session) !in later
    ensures NeverEnds(later, id, session) ==> forall event <- later :: !(event.Created? && event.id == id)
  {
    if later == [] {
      assert log + later == log;
    } else {
      var front, last := later[..|later| - 1], later[|later| - 1];
      LastOfLater(log, later);
      LiveSessionsAreNeverExtended(log, front, id, session);
      LiveAfter(log + front, last, id);
      assert NeverEnds(later, id, session) <==> NeverEnds(front, id, session) && !Ends(last, id, session);
    }
  }

  lemma LastOfLater(log: seq<Event>, later: seq<Event>)
    requires WellFormed(log + later) && later != []
    ensures var front, last := later[..|later| - 1], later[|later| - 1];
      && log + later == (log + front) + [last] && WellFormed(log + front)
      && (last.Created? ==> Live(log + front, last.id).None?)
      && forall event :: event in later <==> event in front || event == last
  {
    var front, last := later[..|later| - 1], later[|later| - 1];
    assert later == front + [last];
    assert (log + later)[..|log + later| - 1] == log + front;
    FrontIsWellFormed(log + later);
  }
}
