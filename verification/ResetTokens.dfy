/** Password-reset tokens under a clock that never runs backwards. */
module ResetTokens {
  import opened Tables

  datatype ResetToken = ResetToken(user: int, expiresAt: int, usedAt: Option<int>)

  type Tokens = map<string, ResetToken>

  datatype Result = Result(tokens: Tokens, accepted: bool)

  // ---------- Steps ----------

  predicate Active(ts: Tokens, token: string, now: int) {
    token in ts && ts[token].expiresAt > now
  }

  predicate ActiveAndUnused(ts: Tokens, token: string, now: int) {
    Active(ts, token, now) && ts[token].usedAt == None
  }

  function ExpireTokensOf(ts: Tokens, user: int, now: int): Tokens {
    map t | t in ts :: if ts[t].user == user then ts[t].(expiresAt := now) else ts[t]
  }

  /** The expiry is computed first, then the user's tokens expire, then the new one is inserted; a token
      that already exists violates the key. */
  function CreateTokenStep(ts: Tokens, token: string, user: int, computed: int, delta: int, expired: int): Result {
    var ts1 := ExpireTokensOf(ts, user, expired);
    if token in ts then Result(ts1, false)
    else Result(ts1[token := ResetToken(user, computed + delta, None)], true)
  }

  function UseToken(ts: Tokens, token: string, user: int, now: int): Tokens {
    if token in ts && ts[token].user == user then ts[token := ts[token].(usedAt := Some(now))] else ts
  }

  /** Refuses an inactive or used token; otherwise accepts, and marks the row of this token and this
      user, if there is one, as used. */
  function UseAccessTokenStep(ts: Tokens, token: string, user: int, checked: int, marked: int): Result {
    if ActiveAndUnused(ts, token, checked) then Result(UseToken(ts, token, user, marked), true)
    else Result(ts, false)
  }

  // ---------- The service ----------

  class ResetTokenService {
    var tokens: Tokens

    constructor ()
      ensures tokens == map[]
    {
      tokens := map[];
    }

    method GetActive(token: string, now: int) returns (row: Option<ResetToken>)
      ensures row == if Active(tokens, token, now) then Some(tokens[token]) else None
    {
      if token in tokens && tokens[token].expiresAt > now {
        return Some(tokens[token]);
      }
      return None;
    }

    method ExpireExistingTokensForUser(user: int, now: int)
      modifies this
      ensures tokens == ExpireTokensOf(old(tokens), user, now)
    {
      var pending := tokens.Keys;
      ghost var was := tokens;
      while pending != {}
        invariant pending <= was.Keys && tokens.Keys == was.Keys
        invariant forall t <- was :: tokens[t] ==
                    if t !in pending && was[t].user == user then was[t].(expiresAt := now) else was[t]
        decreases pending
      {
        var t :| t in pending;
        if tokens[t].user == user {
          tokens := tokens[t := tokens[t].(expiresAt := now)];
        }
        pending := pending - {t};
      }
    }

    method UpdateUsedAt(token: string, user: int, now: int)
      modifies this
      ensures tokens == UseToken(old(tokens), token, user, now)
    {
      if token in tokens && tokens[token].user == user {
        tokens := tokens[token := tokens[token].(usedAt := Some(now))];
      }
    }

    method CreateToken(token: string, user: int, computed: int, delta: int, expired: int) returns (inserted: bool)
      modifies this
      ensures Result(tokens, inserted) == CreateTokenStep(old(tokens), token, user, computed, delta, expired)
    {
      var expiry := computed + delta;
      ExpireExistingTokensForUser(user, expired);
      if token in tokens {
        return false;
      }
      tokens := tokens[token := ResetToken(user, expiry, None)];
      return true;
    }

    method UseAccessToken(token: string, user: int, checked: int, marked: int) returns (accepted: bool)
      modifies this
      ensures Result(tokens, accepted) == UseAccessTokenStep(old(tokens), token, user, checked, marked)
    {
      var t := GetActive(token, checked);
      if t == None || t.value.usedAt.Some? {
        return false;
      }
      UpdateUsedAt(token, user, marked);
      return true;
    }
  }

  // ---------- Runs ----------

  /** A call with the two clock readings it takes. */
  datatype Event =
    | Create(token: string, user: int, first: int, delta: int, second: int)
    | Use(token: string, user: int, first: int, second: int)

  function Apply(ts: Tokens, e: Event): Result {
    match e
    case Create(token, user, first, delta, second) => CreateTokenStep(ts, token, user, first, delta, second)
    case Use(token, user, first, second) => UseAccessTokenStep(ts, token, user, first, second)
  }

  /** The readings never decrease, starting from `clock`. */
  predicate Monotone(clock: int, run: seq<Event>)
    decreases |run|
  {
    run == [] || (clock <= run[0].first <= run[0].second && Monotone(run[0].second, run[1..]))
  }

  function Run(ts: Tokens, run: seq<Event>): Tokens
    decreases |run|
  {
    if run == [] then ts else Run(Apply(ts, run[0]).tokens, run[1..])
  }

  function Clock(clock: int, run: seq<Event>): int {
    if run == [] then clock else run[|run| - 1].second
  }

  /** From `clock` on a user has at most one token that is unused and has not expired. */
  ghost predicate OnePerUser(ts: Tokens, clock: int) {
    forall a, b | a in ts && b in ts && ts[a].user == ts[b].user &&
                  ActiveAndUnused(ts, a, clock) && ActiveAndUnused(ts, b, clock) :: a == b
  }

  lemma StepKeepsOnePerUser(ts: Tokens, clock: int, e: Event)
    requires OnePerUser(ts, clock) && clock <= e.first <= e.second
    ensures OnePerUser(Apply(ts, e).tokens, e.second)
  {
  }

  /** After every run a user has at most one token that can still be used, at that moment or later. */
  lemma {:induction false} RunKeepsOnePerUser(ts: Tokens, clock: int, run: seq<Event>, now: int)
    requires OnePerUser(ts, clock) && Monotone(clock, run) && Clock(clock, run) <= now
    ensures OnePerUser(Run(ts, run), now)
    decreases |run|
  {
    if run != [] {
      StepKeepsOnePerUser(ts, clock, run[0]);
      RunKeepsOnePerUser(Apply(ts, run[0]).tokens, run[0].second, run[1..], now);
    }
  }

  /** A token that has expired stays inactive through every run and after it. */
  lemma {:induction false} ExpiredStaysExpired(ts: Tokens, clock: int, run: seq<Event>, token: string, now: int)
    requires token in ts && !Active(ts, token, clock)
    requires Monotone(clock, run) && Clock(clock, run) <= now
    ensures token in Run(ts, run) && !Active(Run(ts, run), token, now)
    decreases |run|
  {
    if run != [] {
      ExpiredStaysExpired(Apply(ts, run[0]).tokens, run[0].second, run[1..], token, now);
    }
  }

  /** How often a run accepts a token together with the user it belongs to. */
  function Accepted(ts: Tokens, run: seq<Event>, token: string): nat
    decreases |run|
  {
    if run == [] then 0
    else
      var e := run[0];
      var r := Apply(ts, e);
      (if e.Use? && e.token == token && r.accepted && ts[token].user == e.user then 1 else 0) +
      Accepted(r.tokens, run[1..], token)
  }

  lemma {:induction false} UsedIsNeverAccepted(ts: Tokens, run: seq<Event>, token: string)
    requires token in ts && ts[token].usedAt.Some?
    ensures Accepted(ts, run, token) == 0
    decreases |run|
  {
    if run != [] {
      UsedIsNeverAccepted(Apply(ts, run[0]).tokens, run[1..], token);
    }
  }

  /** A token with its own user is accepted at most once in every run. */
  lemma {:induction false} AcceptedAtMostOnce(ts: Tokens, run: seq<Event>, token: string)
    ensures Accepted(ts, run, token) <= 1
    decreases |run|
  {
    if run != [] {
      var e, r := run[0], Apply(ts, run[0]);
      if e.Use? && e.token == token && r.accepted && ts[token].user == e.user {
        UsedIsNeverAccepted(r.tokens, run[1..], token);
      } else {
        AcceptedAtMostOnce(r.tokens, run[1..], token);
      }
    }
  }

  /** An accepted token is used up exactly when the call names its own user; otherwise the tables stay
      as they were and the next call with the same readings is accepted again. */
  lemma AcceptedIsUsedUpIff(ts: Tokens, token: string, user: int, checked: int, marked: int)
    requires UseAccessTokenStep(ts, token, user, checked, marked).accepted
    ensures var r := UseAccessTokenStep(ts, token, user, checked, marked);
            && token in r.tokens
            && (r.tokens[token].usedAt.Some? <==> ts[token].user == user)
            && (ts[token].user != user ==> r.tokens == ts)
            && (UseAccessTokenStep(r.tokens, token, user, checked, marked).accepted <==> ts[token].user != user)
  {
  }

  /** Another user's id is accepted, twice, and leaves the token as it was. */
  lemma OtherUserIsAcceptedTwice()
    ensures var ts: Tokens := map["secret" := ResetToken(1, 10, None)];
            var first := UseAccessTokenStep(ts, "secret", 2, 0, 0);
            var second := UseAccessTokenStep(first.tokens, "secret", 2, 0, 0);
            first.accepted && first.tokens == ts && second.accepted && second.tokens == ts
  {
    AcceptedIsUsedUpIff(map["secret" := ResetToken(1, 10, None)], "secret", 2, 0, 0);
  }

  // ---------- Tokens work ----------

  /** A token is created exactly when it is new. Creating one ends the user's other tokens and no other user's. */
  lemma CreateTokenIsExact(ts: Tokens, token: string, user: int, computed: int, delta: int, expired: int)
    ensures var r := CreateTokenStep(ts, token, user, computed, delta, expired);
            && (r.accepted <==> token !in ts)
            && r.tokens.Keys == ts.Keys + (if r.accepted then {token} else {})
            && (r.accepted ==> r.tokens[token] == ResetToken(user, computed + delta, None))
            && (forall t <- ts ::
                  && r.tokens[t].user == ts[t].user && r.tokens[t].usedAt == ts[t].usedAt
                  && r.tokens[t].expiresAt == if ts[t].user == user then expired else ts[t].expiresAt)
  {
  }

  /** A call is accepted exactly for a stored token that is not used and not expired; only that token can change. */
  lemma UseTokenIsExact(ts: Tokens, token: string, user: int, checked: int, marked: int)
    ensures var r := UseAccessTokenStep(ts, token, user, checked, marked);
            && (r.accepted <==> token in ts && ts[token].usedAt == None && checked < ts[token].expiresAt)
            && r.tokens.Keys == ts.Keys
            && (forall t <- ts ::
                  && r.tokens[t].user == ts[t].user && r.tokens[t].expiresAt == ts[t].expiresAt
                  && r.tokens[t].usedAt == if r.accepted && t == token && ts[t].user == user then Some(marked) else ts[t].usedAt)
  {
  }

  /** The run creates no token for the user and does not use this one with its own user. */
  predicate Undisturbed(run: seq<Event>, token: string, user: int) {
    forall e <- run :: e.user == user ==> e.Use? && e.token != token
  }

  lemma {:induction false} UndisturbedTokenStays(ts: Tokens, token: string, run: seq<Event>)
    requires token in ts && ts[token].usedAt == None && Undisturbed(run, token, ts[token].user)
    ensures token in Run(ts, run) && Run(ts, run)[token] == ts[token]
    decreases |run|
  {
    if run != [] {
      assert run[0] in run;
      var next := Apply(ts, run[0]).tokens;
      assert next[token] == ts[token];
      assert forall e <- run[1..] :: e in run;
      UndisturbedTokenStays(next, token, run[1..]);
    }
  }

  /** A created token is accepted for its user at every reading before the expiry computed at its creation, and at
      none from then on, whatever calls come in between that neither create another token for the user nor use
      this one. */
  lemma CreatedTokenWorksIff(ts: Tokens, token: string, user: int, computed: int, delta: int, expired: int,
                             run: seq<Event>, checked: int, marked: int)
    requires CreateTokenStep(ts, token, user, computed, delta, expired).accepted && Undisturbed(run, token, user)
    ensures var after := Run(CreateTokenStep(ts, token, user, computed, delta, expired).tokens, run);
            UseAccessTokenStep(after, token, user, checked, marked).accepted <==> checked < computed + delta
  {
    UndisturbedTokenStays(CreateTokenStep(ts, token, user, computed, delta, expired).tokens, token, run);
  }
}
