/** The session table as the service changes it. */
module AuthService {
  import opened Basics
  import opened RefreshSessions

  class Service {
    var sessions: Sessions

    constructor ()
      ensures sessions == map[] && Inv(sessions)
    {
      sessions := map[];
      new;
      NoSessions();
    }

    method IssueTokens(user: Id, id: Id, family: Id, now: int) returns (tokens: Tokens)
      requires Inv(sessions) && Valid(sessions, Login(user, id, family, now))
      modifies this
      ensures sessions == Issue(old(sessions), user, id, family, now) && Inv(sessions)
      ensures IsOpened(sessions[id], user, id, family, now) && tokens == Tokens(Access(user), sessions[id].token)
    {
      StepKeeps(sessions, Login(user, id, family, now));
      var expires := now + REFRESH_LIFETIME;
      var refresh := Refresh(user, id, family, expires);
      sessions := sessions[id := Session(user, refresh, family, None, None, expires)];
      return Tokens(Access(user), refresh);
    }

    method Rotate(prior: Id, id: Id, now: int) returns (tokens: Tokens)
      requires prior in sessions && id !in sessions
      modifies this
      ensures sessions == RefreshSessions.Rotate(old(sessions), prior, id, now)
      ensures IsOpened(sessions[id], old(sessions)[prior].user, id, old(sessions)[prior].family, now)
      ensures tokens == TokensOf(sessions[id])
    {
      var s := sessions[prior];
      var expires := now + REFRESH_LIFETIME;
      var refresh := Refresh(s.user, id, s.family, expires);
      sessions := sessions[id := Session(s.user, refresh, s.family, None, None, expires)];
      sessions := sessions[prior := s.(replacedBy := Some(id))];
      return Tokens(Access(s.user), refresh);
    }

    method RefreshLocked(token: Token, id: Id, now: int) returns (answer: Option<Tokens>)
      requires Inv(sessions) && id !in sessions
      modifies this
      ensures (sessions, answer) == Present(old(sessions), token, id, now) && Inv(sessions)
    {
      StepKeeps(sessions, Use(token, id, now));
      if !token.Refresh? || token.session !in sessions || sessions[token.session].token != token { return None; }
      var session := sessions[token.session];
      if session.revoked.Some? || session.expires <= now { return None; }
      if session.replacedBy.Some? {
        var next := session.replacedBy.value;
        if next in sessions && sessions[next].replacedBy.None? && sessions[next].revoked.None? && sessions[next].expires > now {
          var replayed := TokenFor(next, sessions[next]);
          return if replayed != sessions[next].token then None else Some(Tokens(Access(sessions[next].user), replayed));
        }
        var relatives := set i | i in sessions && sessions[i].family == session.family;
        RevokeWhere(relatives, now);
        assert sessions == RevokeFamily(old(sessions), session.family, now);
        return None;
      }
      var rotated := Rotate(token.session, id, now);
      return Some(rotated);
    }

    /** A bulk update of the rows that are not revoked yet. */
    method RevokeWhere(chosen: set<Id>, now: int)
      modifies this
      ensures sessions == map i | i in old(sessions) :: if i in chosen then Revoke(old(sessions)[i], now) else old(sessions)[i]
    {
      sessions := map i | i in sessions :: if i in chosen && sessions[i].revoked.None? then sessions[i].(revoked := Some(now)) else sessions[i];
    }

    method Logout(user: Id, token: Token, now: int)
      requires Inv(sessions)
      modifies this
      ensures sessions == RefreshSessions.Logout(old(sessions), user, token, now) && Inv(sessions)
    {
      StepKeeps(sessions, LogsOut(user, token, now));
      if !token.Refresh? || token.session !in sessions || sessions[token.session].user != user { return; }
      if sessions[token.session].token != token { return; }
      sessions := sessions[token.session := sessions[token.session].(revoked := Some(now))];
    }

    /** Also what a completed password reset does. */
    method LogoutAll(user: Id, now: int)
      requires Inv(sessions)
      modifies this
      ensures sessions == RevokeUser(old(sessions), user, now) && Inv(sessions)
    {
      StepKeeps(sessions, LogsOutEverywhere(user, now));
      var own := set i | i in sessions && sessions[i].user == user;
      RevokeWhere(own, now);
    }
  }
}
