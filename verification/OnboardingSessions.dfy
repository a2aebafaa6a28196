/** Onboarding sessions of an account: the newest one counts. */
module OnboardingSessions {
  import opened Prelude
  import opened Tables

  predicate BelongsTo(s: OnboardingSession, subject: string, account: string) {
    s.subject == subject && s.account == account
  }

  /** `latest_session`: the matching row with the greatest creation time. */
  function Latest(sessions: seq<OnboardingSession>, subject: string, account: string): (r: Option<nat>)
    ensures r.Some? ==> r.value < |sessions| && BelongsTo(sessions[r.value], subject, account)
    ensures r.Some? ==> forall i | 0 <= i < |sessions| && BelongsTo(sessions[i], subject, account) ::
                          sessions[i].createdAt <= sessions[r.value].createdAt
    ensures r.None? ==> forall i | 0 <= i < |sessions| :: !BelongsTo(sessions[i], subject, account)
  {
    if sessions == [] then None
    else
      var last := |sessions| - 1;
      var earlier := Latest(sessions[..last], subject, account);
      if !BelongsTo(sessions[last], subject, account) then earlier
      else if earlier.Some? && sessions[earlier.value].createdAt > sessions[last].createdAt then earlier
      else Some(last)
  }

  function WithNewSession(db: Db, subject: string, account: string, now: int): Db {
    db.(sessions := db.sessions + [OnboardingSession(subject, account, Draft, now)])
  }

  /** `ensure_session`: reuse an open draft, otherwise start one. */
  function Opened(sessions: seq<OnboardingSession>, subject: string, account: string, now: int)
    : seq<OnboardingSession>
  {
    var latest := Latest(sessions, subject, account);
    if latest.None? || sessions[latest.value].status.Terminal() then
      sessions + [OnboardingSession(subject, account, Draft, now)]
    else sessions
  }

  function WithSession(db: Db, subject: string, account: string, now: int): Db {
    db.(sessions := Opened(db.sessions, subject, account, now))
  }

  /** The newest session takes its final status. */
  function Closed(sessions: seq<OnboardingSession>, subject: string, account: string, status: SessionStatus)
    : seq<OnboardingSession>
  {
    match Latest(sessions, subject, account)
    case None => sessions
    case Some(i) => sessions[i := sessions[i].(status := status)]
  }

  function WithClosedSession(db: Db, subject: string, account: string, status: SessionStatus): Db {
    db.(sessions := Closed(db.sessions, subject, account, status))
  }

  class OnboardingRepository {
    const session: Session

    constructor (session: Session)
      ensures this.session == session
    {
      this.session := session;
    }

    method CreateSession(subject: string, account: string)
      modifies session`sessions
      ensures session.Tables() == WithNewSession(old(session.Tables()), subject, account, session.now)
    {
      session.sessions := session.sessions + [OnboardingSession(subject, account, Draft, session.now)];
    }

    method EnsureSession(subject: string, account: string)
      modifies session`sessions
      ensures session.Tables() == WithSession(old(session.Tables()), subject, account, session.now)
    {
      var latest := Latest(session.sessions, subject, account);
      if latest.None? || session.sessions[latest.value].status.Terminal() {
        CreateSession(subject, account);
      }
    }

    method CloseSession(subject: string, account: string, status: SessionStatus)
      modifies session`sessions
      ensures session.Tables() == WithClosedSession(old(session.Tables()), subject, account, status)
    {
      var latest := Latest(session.sessions, subject, account);
      if latest.Some? {
        session.sessions := session.sessions[latest.value := session.sessions[latest.value].(status := status)];
      }
    }
  }
}
