/** Viewer grants bound to a slug and a password generation, and unlock-form challenges. */
module ViewerTokens {
  import opened Passwords
  import opened Tokens
  import opened Wrappers

  /** A salt in canonical hexadecimal form, as every stored password has it. */
  predicate ValidPassword(password: Password) {
    ValidHex(password.saltId, |password.saltId|)
  }

  function ViewerGrant(slug: string, password: Password, clock: Option<nat>): Result<string, TokenError> {
    TimedPayload(GrantPrefix(slug), password.saltId, VIEWER_GRANT_LIFETIME, clock)
  }

  predicate VerifyViewerGrantAt(payload: Option<string>, slug: string, password: Password, now: nat) {
    match payload
    case None => false
    case Some(text) =>
      match ParsePayload(text, GrantPrefix(slug), |password.saltId|)
      case None => false
      case Some((saltId, expiry)) =>
        ValidExpiry(expiry, now, VIEWER_GRANT_LIFETIME) && MatchesHex(password.saltId, saltId)
  }

  /** Some printed grant of this slug and salt that is live now. */
  ghost predicate LiveGrant(payload: Option<string>, slug: string, saltId: string, now: nat) {
    exists expiry: nat :: now < expiry <= now + VIEWER_GRANT_LIFETIME && expiry < TWO_64
      && payload == Some(PrintPayload(GrantPrefix(slug), saltId, expiry))
  }

  /** A grant verifies exactly when it is the printed payload of this slug and current salt, and live. */
  lemma GrantVerifiesExactly(payload: Option<string>, slug: string, password: Password, now: nat)
    requires ValidPassword(password)
    ensures VerifyViewerGrantAt(payload, slug, password, now) <==> LiveGrant(payload, slug, password.saltId, now)
  {
    if VerifyViewerGrantAt(payload, slug, password, now) {
      var (saltId, expiry) := ParsePayload(payload.value, GrantPrefix(slug), |password.saltId|).value;
      ParsingInvertsPrinting(payload.value, GrantPrefix(slug), |password.saltId|, saltId, expiry);
    }
    if LiveGrant(payload, slug, password.saltId, now) {
      var expiry: nat :| now < expiry <= now + VIEWER_GRANT_LIFETIME && expiry < TWO_64
        && payload == Some(PrintPayload(GrantPrefix(slug), password.saltId, expiry));
      ParsingInvertsPrinting(payload.value, GrantPrefix(slug), |password.saltId|, password.saltId, expiry);
    }
  }

  /** A grant never verifies for two salts, and never in another slug's or domain's place. */
  lemma GrantsBindGenerations(payload: Option<string>, slug: string, a: Password, b: Password, now: nat, later: nat)
    requires ValidPassword(a) && ValidPassword(b)
    requires VerifyViewerGrantAt(payload, slug, a, now) && VerifyViewerGrantAt(payload, slug, b, later)
    ensures a.saltId == b.saltId
  {
    GrantVerifiesExactly(payload, slug, a, now);
    GrantVerifiesExactly(payload, slug, b, later);
    var e: nat :| payload == Some(PrintPayload(GrantPrefix(slug), a.saltId, e)) && e > now && e < TWO_64;
    var f: nat :| payload == Some(PrintPayload(GrantPrefix(slug), b.saltId, f)) && f > later && f < TWO_64;
    TokenOfPayload(GrantPrefix(slug), a.saltId, e);
    TokenOfPayload(GrantPrefix(slug), b.saltId, f);
  }

  /** The token of a payload can be read off without knowing its width. */
  lemma TokenOfPayload(prefix: string, token: string, expiry: nat)
    requires ValidHex(token, |token|)
    ensures Strings.SplitOnce(PrintPayload(prefix, token, expiry)[|prefix|..], ':') == Some((token, PrintDecimal(expiry)))
  {
    var payload := PrintPayload(prefix, token, expiry);
    assert payload[|prefix|..] == token + [':'] + PrintDecimal(expiry);
    assert ':' !in token;
    Strings.SplitOnceUnique(token, PrintDecimal(expiry), ':');
  }

  /** A grant issued at one time verifies from then on for exactly seven days. */
  lemma GrantLifetime(slug: string, password: Password, issued: nat, now: nat)
    requires ValidPassword(password) && issued + VIEWER_GRANT_LIFETIME < TWO_64
    ensures var grant := ViewerGrant(slug, password, Some(issued));
      grant.Ok? && (VerifyViewerGrantAt(Some(grant.value), slug, password, now)
                    <==> issued <= now < issued + VIEWER_GRANT_LIFETIME)
  {
    var expiry := issued + VIEWER_GRANT_LIFETIME;
    PrintedParses(GrantPrefix(slug), |password.saltId|, password.saltId, expiry);
  }

  function ParseViewerChallenge(payload: string, slug: string): Option<(string, nat)> {
    ParsePayload(payload, FormPrefix(slug), TOKEN_CHARS)
  }

  predicate VerifyViewerChallengeAt(payload: Option<string>, slug: string, submitted: string, now: nat) {
    match payload
    case None => false
    case Some(text) =>
      match ParseViewerChallenge(text, slug)
      case None => false
      case Some((token, expiry)) =>
        ValidExpiry(expiry, now, VIEWER_CHALLENGE_LIFETIME) && Matches(token, submitted)
  }

  /** Some printed unlock form of this slug and nonce that is live now. */
  ghost predicate LiveForm(payload: Option<string>, slug: string, nonce: string, now: nat) {
    exists expiry: nat :: now < expiry <= now + VIEWER_CHALLENGE_LIFETIME && expiry < TWO_64
      && payload == Some(PrintPayload(FormPrefix(slug), nonce, expiry))
  }

  /** An unlock challenge verifies exactly while its own printed form is live for the submitted nonce. */
  lemma ViewerChallengeVerifiesExactly(payload: Option<string>, slug: string, submitted: string, now: nat)
    ensures VerifyViewerChallengeAt(payload, slug, submitted, now) <==>
            ValidHex(submitted, TOKEN_CHARS) && LiveForm(payload, slug, submitted, now)
  {
    if VerifyViewerChallengeAt(payload, slug, submitted, now) {
      var (token, expiry) := ParseViewerChallenge(payload.value, slug).value;
      ParsingInvertsPrinting(payload.value, FormPrefix(slug), TOKEN_CHARS, token, expiry);
    }
    if ValidHex(submitted, TOKEN_CHARS) && LiveForm(payload, slug, submitted, now) {
      var expiry: nat :| now < expiry <= now + VIEWER_CHALLENGE_LIFETIME && expiry < TWO_64
        && payload == Some(PrintPayload(FormPrefix(slug), submitted, expiry));
      ParsingInvertsPrinting(payload.value, FormPrefix(slug), TOKEN_CHARS, submitted, expiry);
    }
  }
}
