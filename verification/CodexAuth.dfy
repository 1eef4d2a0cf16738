// lib/codex_auth/client.py: refreshing the bearer token in the shared auth file.
module CodexAuth {
  import opened Basics

  type Token = string

  type Time = int

  datatype Auth = Auth(access: string, expiry: Option<Time>, refresh: Token)

  predicate NeedsRefresh(auth: Auth, now: Time, skew: int) {
    auth.expiry.None? || now + skew >= auth.expiry.value
  }

  // ---- one refresh request and its retries ------------------------------------------------------

  // What a body may hold: new tokens, an error code, or neither.
  datatype Body = Tokens(access: string, expiry: Option<Time>, refresh: Option<Token>) | ErrorCode(code: string) | NoJson

  datatype Response = NetworkError | Reply(status: int, body: Body)

  datatype Error = Expired(code: string) | NoAccessToken(status: int) | Refused(status: int) | Transient(status: int) | Network | Corrupt

  datatype Step = Take(tokens: Body) | GiveUp(error: Error) | Again(error: Error)

  const EXPIRED_CODES: seq<string> :=
    ["invalid_grant", "refresh_token_expired", "refresh_token_already_used", "refresh_token_revoked"]

  // Three waits, then a last try.
  const BACKOFFS := 3

  function Judge(r: Response): (step: Step)
    ensures step.Take? ==> step.tokens.Tokens? && r.Reply? && step.tokens == r.body
    ensures step.Take? <==> r.Reply? && 200 <= r.status <= 299 && r.body.Tokens?
    ensures step.GiveUp? && step.error.Expired? <==>
              r.Reply? && (r.status < 200 || r.status > 299) && r.body.ErrorCode?
              && (r.body.code == "invalid_grant" || r.body.code == "refresh_token_expired"
                  || r.body.code == "refresh_token_already_used" || r.body.code == "refresh_token_revoked")
    ensures step.GiveUp? && step.error.Expired? ==> step.error.code == r.body.code
    ensures step.Again? && r.Reply? ==> r.status == 408 || r.status == 429 || r.status < 200 || 300 <= r.status <= 399 || r.status >= 500
    ensures r.Reply? && (r.status == 408 || r.status == 429 || r.status < 200 || 300 <= r.status <= 399 || r.status >= 500) ==>
              step.Again? || step.error.Expired?
    ensures r.NetworkError? ==> step == Again(Network)
  {
    if r.NetworkError? then Again(Network)
    else if 200 <= r.status < 300 then (if r.body.Tokens? then Take(r.body) else GiveUp(NoAccessToken(r.status)))
    else if r.body.ErrorCode? && r.body.code in EXPIRED_CODES then GiveUp(Expired(r.body.code))
    else if 400 <= r.status < 500 && r.status != 408 && r.status != 429 then GiveUp(Refused(r.status))
    else Again(Transient(r.status))
  }

  // The posts made before one settles the matter, or the fourth is made.
  ghost predicate Settled(answers: nat -> Response, posts: nat)
    requires posts > 0
  {
    && posts <= 4
    && (forall k: nat :: k < posts - 1 ==> Judge(answers(k)).Again?)
    && (Judge(answers(posts - 1)).Again? ==> posts == 4)
  }

  method PostRefresh(answers: nat -> Response) returns (r: Result<Body, Error>, posts: nat)
    ensures 1 <= posts <= 4 && Settled(answers, posts)
    ensures r.Ok? ==> var last := answers(posts - 1); last.Reply? && 200 <= last.status < 300 && r.value == last.body && last.body.Tokens?
    ensures r == match Judge(answers(posts - 1))
                 case Take(tokens) => Ok(tokens)
                 case GiveUp(error) => Err(error)
                 case Again(error) => Err(error)
  {
    posts := 0;
    while true
      invariant posts <= BACKOFFS
      invariant forall k: nat :: k < posts ==> Judge(answers(k)).Again?
      decreases BACKOFFS - posts
    {
      var step := Judge(answers(posts));
      posts := posts + 1;
      match step {
        case Take(tokens) => return Ok(tokens), posts;
        case GiveUp(error) => return Err(error), posts;
        case Again(error) =>
          if posts == BACKOFFS + 1 {
            return Err(error), posts;
          }
      }
    }
  }

  // ---- new state from new tokens -------------------------------------------------------------------

  // The state is parsed back, so an empty access token is refused.  A reply without a
  // refresh token keeps the old one.
  function WithTokens(auth: Auth, tokens: Body): Result<Auth, Error>
    requires tokens.Tokens?
  {
    if tokens.access == "" then Err(Corrupt)
    else Ok(Auth(tokens.access, tokens.expiry,
                 if tokens.refresh.Some? && tokens.refresh.value != "" then tokens.refresh.value else auth.refresh))
  }

  function Outcome(auth: Auth, last: Step): Result<Auth, Error>
    requires last.Take? ==> last.tokens.Tokens?
  {
    match last
    case Take(tokens) => WithTokens(auth, tokens)
    case GiveUp(error) => Err(error)
    case Again(error) => Err(error)
  }

  ghost predicate UsableTokens(last: Response) {
    last.Reply? && 200 <= last.status < 300 && last.body.Tokens? && last.body.access != ""
  }

  // The file after a refresh that came through: the new access token and its expiry from
  // the last answer, and its refresh token if it brought one.
  ghost predicate Answered(answers: nat -> Response, posts: nat, before: Auth, after: Auth)
    requires posts > 0
  {
    var last := answers(posts - 1);
    && last.Reply? && 200 <= last.status < 300 && last.body.Tokens? && last.body.access != ""
    && after.access == last.body.access && after.expiry == last.body.expiry
    && after.refresh == match last.body.refresh
                        case Some(token) => if token == "" then before.refresh else token
                        case None => before.refresh
  }

  class Client {
    var file: Auth
    const skew: int

    constructor (file: Auth, skew: int)
      ensures this.file == file && this.skew == skew
    {
      this.file, this.skew := file, skew;
    }

    // Under the exclusive lock: read again, check again, and only then post.  The
    // answer that settled the matter decides what is returned and what is written.
    method Refresh(force: bool, now: Time, answers: nat -> Response) returns (r: Result<Auth, Error>, posts: nat)
      modifies `file
      ensures posts == 0 <==> !force && old(file).expiry.Some? && now + skew < old(file).expiry.value
      ensures posts == 0 ==> r == Ok(old(file))
      ensures posts > 0 && r.Ok? ==> Answered(answers, posts, old(file), file)
      ensures r.Ok? <==> posts == 0 || UsableTokens(answers(posts - 1))
      ensures posts > 0 ==> Settled(answers, posts) && r == Outcome(old(file), Judge(answers(posts - 1)))
      ensures file == if r.Ok? then r.value else old(file)
    {
      var state := file;
      if !force && !NeedsRefresh(state, now, skew) {
        return Ok(state), 0;
      }
      var reply;
      reply, posts := PostRefresh(answers);
      if reply.Err? {
        return Err(reply.error), posts;
      }
      r := WithTokens(state, reply.value);
      if r.Ok? {
        file := r.value;
      }
    }

    // The first check is on what was read under the shared lock.
    method GetBearer(now: Time, answers: nat -> Response) returns (r: Result<string, Error>, posts: nat)
      modifies `file
      ensures posts == 0 <==> old(file).expiry.Some? && now + skew < old(file).expiry.value
      ensures posts == 0 ==> r == Ok(old(file).access) && file == old(file)
      ensures posts > 0 && r.Ok? ==> Answered(answers, posts, old(file), file) && r.value == file.access
      ensures r.Ok? <==> posts == 0 || UsableTokens(answers(posts - 1))
      ensures posts > 0 ==>
                var outcome := Outcome(old(file), Judge(answers(posts - 1)));
                && Settled(answers, posts)
                && file == (if outcome.Ok? then outcome.value else old(file))
                && r == if outcome.Ok? then Ok(outcome.value.access) else Err(outcome.error)
    {
      var state := file;
      if !NeedsRefresh(state, now, skew) {
        return Ok(state.access), 0;
      }
      var updated;
      updated, posts := Refresh(false, now, answers);
      r := if updated.Ok? then Ok(updated.value.access) else Err(updated.error);
    }
  }
}
