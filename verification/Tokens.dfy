/** Canonical hexadecimal tokens and expiring, domain-separated cookie payloads. */
module Tokens {
  import opened Names
  import opened Strings
  import opened Wrappers

  const TWO_64 := 0x1_0000_0000_0000_0000
  const TOKEN_CHARS := 64
  const MAX_TIMESTAMP_CHARS := 20
  const CHALLENGE_LIFETIME := 15 * 60
  const VIEWER_GRANT_LIFETIME := 7 * 24 * 60 * 60
  const VIEWER_CHALLENGE_LIFETIME := CHALLENGE_LIFETIME
  const CHALLENGE_PREFIX := "login:"
  const GRANT_DOMAIN := "unlock:v1:"
  const FORM_DOMAIN := "unlock-form:v1:"

  // ---------- Hexadecimal ----------

  predicate HexDigit(c: char) {
    '0' <= c <= '9' || 'a' <= c <= 'f'
  }

  function HexChar(digit: nat): (c: char)
    requires digit < 16
    ensures HexDigit(c)
  {
    if digit < 10 then ('0' as int + digit) as char else ('a' as int + digit - 10) as char
  }

  function HexValue(c: char): (digit: nat)
    requires HexDigit(c)
    ensures digit < 16
  {
    if c <= '9' then c as int - '0' as int else c as int - 'a' as int + 10
  }

  /** The bytes that a canonical encoding stands for. */
  function HexDecode(token: string): Bytes
    requires |token| % 2 == 0 && forall c <- token :: HexDigit(c)
  {
    if token == "" then []
    else [HexValue(token[0]) * 16 + HexValue(token[1])] + HexDecode(token[2..])
  }

  predicate ValidHex(token: string, chars: nat) {
    |token| == chars && forall c <- token :: HexDigit(c)
  }

  /** Encodes bytes digit by digit; decoding gives the bytes back, so no two inputs collide. */
  method HexEncode(bytes: Bytes) returns (token: string)
    ensures ValidHex(token, 2 * |bytes|)
    ensures HexDecode(token) == bytes
  {
    token := "";
    for i := 0 to |bytes|
      invariant ValidHex(token, 2 * i)
      invariant HexDecode(token) == bytes[..i]
    {
      var high, low := HexChar(bytes[i] / 16), HexChar(bytes[i] % 16);
      DecodeAppend(token, high, low);
      token := token + [high] + [low];
    }
  }

  lemma {:induction false} DecodeAppend(token: string, high: char, low: char)
    requires |token| % 2 == 0 && (forall c <- token :: HexDigit(c)) && HexDigit(high) && HexDigit(low)
    ensures HexDecode(token + [high] + [low]) == HexDecode(token) + [HexValue(high) * 16 + HexValue(low)]
  {
    var all := token + [high] + [low];
    if token != "" {
      assert all[2..] == token[2..] + [high] + [low];
      DecodeAppend(token[2..], high, low);
    }
  }

  predicate MatchesHex(expected: string, submitted: string) {
    ValidHex(submitted, |expected|) && expected == submitted
  }

  predicate Matches(expected: string, submitted: string) {
    ValidHex(submitted, TOKEN_CHARS) && MatchesHex(expected, submitted)
  }

  // ---------- Decimal timestamps ----------

  predicate Digit(c: char) {
    '0' <= c <= '9'
  }

  function DigitChar(digit: nat): (c: char)
    requires digit < 10
    ensures Digit(c)
  {
    ('0' as int + digit) as char
  }

  function DigitValue(c: char): (digit: nat)
    requires Digit(c)
    ensures digit < 10 && DigitChar(digit) == c
  {
    c as int - '0' as int
  }

  /** `Display` of an unsigned integer. */
  function PrintDecimal(n: nat): (text: string)
    ensures text != "" && forall c <- text :: Digit(c)
  {
    if n < 10 then [DigitChar(n)] else PrintDecimal(n / 10) + [DigitChar(n % 10)]
  }

  function DecimalValue(text: string): nat
    requires forall c <- text :: Digit(c)
  {
    if text == "" then 0
    else
      assert text[|text| - 1] in text;
      DecimalValue(text[..|text| - 1]) * 10 + DigitValue(text[|text| - 1])
  }

  /** `parse::<u64>` of digits. */
  function ParseU64(text: string): Option<nat>
    requires forall c <- text :: Digit(c)
  {
    if text != "" && DecimalValue(text) < TWO_64 then Some(DecimalValue(text)) else None
  }

  lemma {:induction false} PrintedValue(n: nat)
    ensures DecimalValue(PrintDecimal(n)) == n
    ensures n > 0 ==> PrintDecimal(n)[0] != '0'
  {
    if n >= 10 {
      PrintedValue(n / 10);
      var text := PrintDecimal(n);
      assert text[..|text| - 1] == PrintDecimal(n / 10);
    }
  }

  lemma {:induction false} CanonicalDigits(text: string)
    requires text != "" && (forall c <- text :: Digit(c)) && text[0] != '0'
    ensures PrintDecimal(DecimalValue(text)) == text && DecimalValue(text) > 0
  {
    var front, last := text[..|text| - 1], text[|text| - 1];
    assert text == front + [last];
    assert last in text && DecimalValue(text) == DecimalValue(front) * 10 + DigitValue(last);
    if front == "" {
      assert DecimalValue(front) == 0;
      assert text == [last];
    } else {
      CanonicalDigits(front);
    }
  }

  function PowerOfTen(k: nat): nat {
    if k == 0 then 1 else 10 * PowerOfTen(k - 1)
  }

  lemma {:induction false} PrintedLength(n: nat, k: nat)
    requires k > 0 && n < PowerOfTen(k)
    ensures |PrintDecimal(n)| <= k
  {
    if n >= 10 {
      assert k > 1;
      PrintedLength(n / 10, k - 1);
    }
  }

  lemma TimestampsFit(n: nat)
    requires n < TWO_64
    ensures |PrintDecimal(n)| <= MAX_TIMESTAMP_CHARS
  {
    assert PowerOfTen(5) == 100_000;
    assert PowerOfTen(10) == 100_000 * PowerOfTen(5);
    assert PowerOfTen(15) == 100_000 * PowerOfTen(10);
    assert PowerOfTen(20) == 100_000 * PowerOfTen(15);
    PrintedLength(n, 20);
  }

  // ---------- Payloads ----------

  function PrintPayload(prefix: string, token: string, expiry: nat): string {
    prefix + token + ":" + PrintDecimal(expiry)
  }

  datatype TokenError = ClockError | ExpiryOverflow

  /** A payload expiring one lifetime from now; the clock may be unusable. */
  function TimedPayload(prefix: string, token: string, lifetime: nat, clock: Option<nat>): Result<string, TokenError> {
    match clock
    case None => Err(ClockError)
    case Some(now) =>
      if now + lifetime >= TWO_64 then Err(ExpiryOverflow) else Ok(PrintPayload(prefix, token, now + lifetime))
  }

  function ParsePayload(payload: string, prefix: string, tokenChars: nat): Option<(string, nat)> {
    if |payload| > |prefix| + tokenChars + 1 + MAX_TIMESTAMP_CHARS || !(prefix <= payload) then None
    else
      match SplitOnce(payload[|prefix|..], ':')
      case None => None
      case Some((token, timestamp)) =>
        if !ValidHex(token, tokenChars) || timestamp == "" || |timestamp| > MAX_TIMESTAMP_CHARS
           || timestamp[0] == '0' || !(forall c <- timestamp :: Digit(c)) then None
        else
          match ParseU64(timestamp)
          case None => None
          case Some(expiry) => Some((token, expiry))
  }

  /** Parsing accepts exactly the printed payloads of a positive 64-bit expiry, and inverts printing. */
  lemma ParsingInvertsPrinting(payload: string, prefix: string, tokenChars: nat, token: string, expiry: nat)
    ensures ParsePayload(payload, prefix, tokenChars) == Some((token, expiry)) <==>
            && ValidHex(token, tokenChars)
            && 0 < expiry < TWO_64
            && payload == PrintPayload(prefix, token, expiry)
  {
    if ValidHex(token, tokenChars) && 0 < expiry < TWO_64 && payload == PrintPayload(prefix, token, expiry) {
      PrintedParses(prefix, tokenChars, token, expiry);
    }
    if ParsePayload(payload, prefix, tokenChars) == Some((token, expiry)) {
      var (parsed, timestamp) := SplitOnce(payload[|prefix|..], ':').value;
      CanonicalDigits(timestamp);
      assert payload == prefix + payload[|prefix|..];
      assert payload == prefix + token + ":" + timestamp;
    }
  }

  lemma PrintedParses(prefix: string, tokenChars: nat, token: string, expiry: nat)
    requires ValidHex(token, tokenChars) && 0 < expiry < TWO_64
    ensures ParsePayload(PrintPayload(prefix, token, expiry), prefix, tokenChars) == Some((token, expiry))
  {
    var payload, timestamp := PrintPayload(prefix, token, expiry), PrintDecimal(expiry);
    assert payload[|prefix|..] == token + ":" + timestamp;
    assert ':' !in token;
    SplitOnceUnique(token, timestamp, ':');
    PrintedValue(expiry);
    TimestampsFit(expiry);
  }

  /** An expiry in the future, but no further away than a fresh payload's. */
  predicate ValidExpiry(expiry: nat, now: nat, lifetime: nat) {
    expiry >= now && 1 <= expiry - now <= lifetime
  }

  function ParseChallenge(payload: string): Option<(string, nat)> {
    ParsePayload(payload, CHALLENGE_PREFIX, TOKEN_CHARS)
  }

  predicate VerifyChallengeAt(payload: Option<string>, submitted: string, now: nat) {
    match payload
    case None => false
    case Some(text) =>
      match ParseChallenge(text)
      case None => false
      case Some((token, expiry)) => ValidExpiry(expiry, now, CHALLENGE_LIFETIME) && Matches(token, submitted)
  }

  /** Some printed login challenge of this nonce that is live now. */
  ghost predicate LiveChallenge(payload: Option<string>, nonce: string, now: nat) {
    exists expiry: nat :: now < expiry <= now + CHALLENGE_LIFETIME && expiry < TWO_64
      && payload == Some(PrintPayload(CHALLENGE_PREFIX, nonce, expiry))
  }

  /** A login challenge verifies exactly while its own printed form is live for the submitted nonce. */
  lemma ChallengeVerifiesExactly(payload: Option<string>, submitted: string, now: nat)
    ensures VerifyChallengeAt(payload, submitted, now) <==>
            ValidHex(submitted, TOKEN_CHARS) && LiveChallenge(payload, submitted, now)
  {
    if VerifyChallengeAt(payload, submitted, now) {
      var (token, expiry) := ParseChallenge(payload.value).value;
      ParsingInvertsPrinting(payload.value, CHALLENGE_PREFIX, TOKEN_CHARS, token, expiry);
    }
    if ValidHex(submitted, TOKEN_CHARS) && LiveChallenge(payload, submitted, now) {
      var expiry: nat :| now < expiry <= now + CHALLENGE_LIFETIME && expiry < TWO_64
        && payload == Some(PrintPayload(CHALLENGE_PREFIX, submitted, expiry));
      ParsingInvertsPrinting(payload.value, CHALLENGE_PREFIX, TOKEN_CHARS, submitted, expiry);
    }
  }

  // ---------- Domain separation ----------

  function GrantPrefix(slug: string): string {
    GRANT_DOMAIN + slug + ":"
  }

  function FormPrefix(slug: string): string {
    FORM_DOMAIN + slug + ":"
  }

  datatype Domain = Login | Grant(slug: string) | Form(slug: string)

  function DomainPrefix(domain: Domain): string {
    match domain
    case Login => CHALLENGE_PREFIX
    case Grant(slug) => GrantPrefix(slug)
    case Form(slug) => FormPrefix(slug)
  }

  predicate ValidDomain(domain: Domain) {
    domain.Login? || ValidSlug(domain.slug)
  }

  /** No payload parses in two domains or for two slugs, whatever token widths they use. */
  lemma DomainsAreSeparate(payload: string, a: Domain, aChars: nat, b: Domain, bChars: nat)
    requires ValidDomain(a) && ValidDomain(b)
    requires ParsePayload(payload, DomainPrefix(a), aChars).Some?
    requires ParsePayload(payload, DomainPrefix(b), bChars).Some?
    ensures a == b
  {
    assert DomainPrefix(a) <= payload && DomainPrefix(b) <= payload;
    if a != b { PrefixesAreApart(payload, a, b); }
  }

  lemma PrefixesAreApart(payload: string, a: Domain, b: Domain)
    requires ValidDomain(a) && ValidDomain(b) && a != b
    ensures !(DomainPrefix(a) <= payload && DomainPrefix(b) <= payload)
  {
    var p, q := DomainPrefix(a), DomainPrefix(b);
    if a.Grant? && b.Grant? {
      SlugPrefixesAreApart(payload, GRANT_DOMAIN, a.slug, b.slug);
    } else if a.Form? && b.Form? {
      SlugPrefixesAreApart(payload, FORM_DOMAIN, a.slug, b.slug);
    } else {
      assert CHALLENGE_PREFIX[0] == 'l' && GRANT_DOMAIN[0] == 'u' && FORM_DOMAIN[0] == 'u';
      assert GRANT_DOMAIN[6] == ':' && FORM_DOMAIN[6] == '-';
      assert p[0] != q[0] || (|p| > 6 && |q| > 6 && p[6] != q[6]);
    }
  }

  lemma SlugPrefixesAreApart(payload: string, domain: string, a: string, b: string)
    requires ValidSlug(a) && ValidSlug(b) && a != b
    ensures !(domain + a + ":" <= payload && domain + b + ":" <= payload)
  {
    var p, q := domain + a + ":", domain + b + ":";
    if p <= payload && q <= payload {
      assert payload == p + payload[|p|..] && payload == q + payload[|q|..];
      var rest := payload[|domain|..];
      assert rest == a + [':'] + payload[|p|..];
      assert rest == b + [':'] + payload[|q|..];
      assert ':' !in a && ':' !in b;
      SplitOnceUnique(a, payload[|p|..], ':');
      SplitOnceUnique(b, payload[|q|..], ':');
      assert false;
    }
  }
}
