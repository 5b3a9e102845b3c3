/**
  The string classifiers and masks of the audit-log redaction service.

  Case-insensitive tests lower ASCII letters only: no other character lowers, or
  folds under a regular expression's `i` flag, to a letter of the words looked for.
 */
module RedactionStrings {
  const REDACTED := "[REDACTED]"
  const REDACTED_EMAIL := "[REDACTED_EMAIL]"

  const SENSITIVE_EXACT_FIELDS: seq<string> := [
    "token", "accessToken", "refreshToken", "resetToken", "passwordResetToken", "bearerToken", "authToken",
    "jwtToken", "inviteToken", "sessionToken", "password", "passwordHash", "newPassword", "currentPassword",
    "passphrase", "credential", "secret", "apiSecret", "clientSecret", "signingSecret", "encryptionKey",
    "privateKey", "apiKey", "webhookSecret", "stellarSecret", "encryptedPayload", "encryptedData",
    "encryptedContent", "rawEncrypted", "ciphertext", "encryptedBody", "signature", "signedMessage",
    "digitalSignature", "authorization"
  ]

  const SENSITIVE_WORDS: seq<string> := [
    "secret", "password", "passphrase", "credential", "encrypt", "cipher",
    "signature", "privatekey", "apikey", "bearer", "authorization"
  ]

  // ---- Characters ----------------------------------------------------------

  predicate IsDigit(c: char) { '0' <= c <= '9' }

  predicate IsHexDigit(c: char) { IsDigit(c) || 'a' <= c <= 'f' || 'A' <= c <= 'F' }

  predicate IsBase64Url(c: char) { IsDigit(c) || 'a' <= c <= 'z' || 'A' <= c <= 'Z' || c == '-' || c == '_' }

  /** The class `\s`. */
  predicate IsSpace(c: char) {
    || '\t' <= c <= '\r' || c == ' ' || c == '\U{00A0}' || c == '\U{1680}' || '\U{2000}' <= c <= '\U{200A}'
    || c == '\U{2028}' || c == '\U{2029}' || c == '\U{202F}' || c == '\U{205F}' || c == '\U{3000}' || c == '\U{FEFF}'
  }

  predicate AllHex(s: string) { forall c | c in s :: IsHexDigit(c) }

  predicate AllDigits(s: string) { forall c | c in s :: IsDigit(c) }

  predicate AllBase64Url(s: string) { forall c | c in s :: IsBase64Url(c) }

  function Lower(c: char): char {
    if 'A' <= c <= 'Z' then ((c as int) + 32) as char else c
  }

  function LowerAll(s: string): string {
    seq(|s|, i requires 0 <= i < |s| => Lower(s[i]))
  }

  // ---- Substrings ----------------------------------------------------------

  predicate Includes(s: string, word: string)
    decreases |s|
  {
    word <= s || (s != "" && Includes(s[1..], word))
  }

  predicate EndsWith(s: string, word: string) {
    |word| <= |s| && s[|s| - |word|..] == word
  }

  function IndexOf(s: string, c: char): (n: nat)
    ensures n <= |s| && c !in s[..n] && (n < |s| ==> s[n] == c)
  {
    if s == "" || s[0] == c then 0 else
      var n := 1 + IndexOf(s[1..], c);
      assert s[..n] == [s[0]] + s[1..][..n - 1];
      n
  }

  /** `s.split(c)`: never empty. */
  function Split(s: string, c: char): (parts: seq<string>)
    ensures parts != []
    decreases |s|
  {
    var n := IndexOf(s, c);
    if n == |s| then [s] else [s[..n]] + Split(s[n + 1..], c)
  }

  function Count(s: string, c: char): nat {
    if s == "" then 0 else (if s[0] == c then 1 else 0) + Count(s[1..], c)
  }

  lemma {:induction false} CountConcat(a: string, b: string, c: char)
    ensures Count(a + b, c) == Count(a, c) + Count(b, c)
  {
    if a == "" {
      assert a + b == b;
    } else {
      assert (a + b)[1..] == a[1..] + b;
      CountConcat(a[1..], b, c);
    }
  }

  lemma {:induction false} CountNone(s: string, c: char)
    requires c !in s
    ensures Count(s, c) == 0
  {
    if s != "" { CountNone(s[1..], c); }
  }

  /** Splitting gives one part more than there are separators. */
  lemma {:induction false} SplitCounts(s: string, c: char)
    ensures |Split(s, c)| == 1 + Count(s, c)
    decreases |s|
  {
    var n := IndexOf(s, c);
    CountNone(s[..n], c);
    if n == |s| {
      assert s[..n] == s;
    } else {
      SplitCounts(s[n + 1..], c);
      assert s == s[..n] + ([c] + s[n + 1..]);
      CountConcat(s[..n], [c] + s[n + 1..], c);
      assert ([c] + s[n + 1..])[1..] == s[n + 1..];
    }
  }

  // ---- Field names ---------------------------------------------------------

  predicate OneOf(name: string, names: seq<string>) {
    names != [] && (name == names[0] || OneOf(name, names[1..]))
  }

  lemma {:induction false} OneOfIsIn(name: string, names: seq<string>)
    ensures OneOf(name, names) <==> name in names
  {
    if names != [] { OneOfIsIn(name, names[1..]); }
  }

  predicate IsSensitiveField(name: string) {
    || OneOf(name, SENSITIVE_EXACT_FIELDS)
    || (exists i | 0 <= i < |SENSITIVE_WORDS| :: Includes(LowerAll(name), SENSITIVE_WORDS[i]))
    || EndsWith(LowerAll(name), "token")
    || EndsWith(LowerAll(name), "_token")
  }

  predicate IsEmailKey(key: string) {
    Includes(LowerAll(key), "email") || LowerAll(key) == "sender" || LowerAll(key) == "recipient"
  }

  predicate IsUserIdKey(key: string) {
    key == "userId" || key == "targetUserId"
  }

  // ---- Values --------------------------------------------------------------

  /** Three base64url segments, as in section 7.1 of RFC 7515. */
  predicate IsJwt(s: string) {
    var parts := Split(s, '.');
    |parts| == 3 && forall i | 0 <= i < 3 :: parts[i] != "" && AllBase64Url(parts[i])
  }

  predicate IsEmail(s: string) {
    var at := IndexOf(s, '@');
    && 0 < at < |s|
    && '@' !in s[at + 1..]
    && (forall c | c in s :: !IsSpace(c))
    && exists dot | at + 1 < dot < |s| - 1 :: s[dot] == '.'
  }

  predicate IsNumeric(s: string) { s != "" && AllDigits(s) }

  predicate IsLongHex(s: string) { |s| >= 40 && AllHex(s) }

  // ---- Masks ---------------------------------------------------------------

  /** A SHA-256 digest in hexadecimal. */
  type Digest = f: string -> string | forall s :: |f(s)| == 64 && AllHex(f(s)) witness (s => seq(64, i => '0'))

  function MaskUserId(sha256: Digest, id: string): string {
    "user_" + sha256(id)[..12]
  }

  function MaskEmail(email: string): string {
    var at := IndexOf(email, '@');
    if at == |email| || at == 0 then REDACTED_EMAIL
    else if at <= 2 then "*" + email[at..]
    else email[..2] + "***" + email[at..]
  }

  function MaskJwt(token: string): string {
    var parts := Split(token, '.');
    if |parts| == 3 then "xxx." + parts[0] + "." + parts[1] + ".xxx" else REDACTED
  }

  function MaskLongHex(hex: string): string {
    if |hex| <= 8 then hex else hex[..4] + "..." + hex[|hex| - 4..]
  }

  /** What matters about a key. */
  datatype Kind = Kind(sensitive: bool, email: bool, userId: bool)

  function KindOf(key: string): Kind {
    Kind(IsSensitiveField(key), IsEmailKey(key), IsUserIdKey(key))
  }

  /** The tests in their order, under a key of this kind. */
  function RedactAs(sha256: Digest, kind: Kind, s: string): string {
    if kind.sensitive then REDACTED
    else if IsJwt(s) then MaskJwt(s)
    else if kind.email && IsEmail(s) then MaskEmail(s)
    else if kind.userId && IsNumeric(s) then MaskUserId(sha256, s)
    else if IsLongHex(s) then MaskLongHex(s)
    else s
  }

  function RedactString(sha256: Digest, key: string, s: string): string {
    RedactAs(sha256, KindOf(key), s)
  }

  // ---- What may be stored --------------------------------------------------

  /** The part before the `@` is one star, or two characters and three stars. */
  predicate IsMaskedEmail(s: string) {
    var local := s[..IndexOf(s, '@')];
    local == "*" || (|local| == 5 && local[2..] == "***")
  }

  predicate StorableAs(kind: Kind, s: string) {
    if kind.sensitive then s == REDACTED
    else
      && !IsJwt(s)
      && !IsLongHex(s)
      && (kind.email && IsEmail(s) ==> IsMaskedEmail(s))
      && (kind.userId ==> !IsNumeric(s))
  }

  /** The strings that may be stored under a key. */
  predicate Storable(key: string, s: string) {
    StorableAs(KindOf(key), s)
  }

  lemma JwtHasTwoDots(s: string)
    ensures IsJwt(s) ==> Count(s, '.') == 2
  {
    SplitCounts(s, '.');
  }

  lemma NoDotsNoJwt(s: string)
    requires '.' !in s
    ensures !IsJwt(s)
  {
    CountNone(s, '.');
    JwtHasTwoDots(s);
  }

  lemma MaskedJwtHasThreeDots(s: string)
    requires IsJwt(s)
    ensures Count(MaskJwt(s), '.') >= 3
  {
    var parts := Split(s, '.');
    var tail := parts[1] + ".xxx";
    var body := parts[0] + ("." + tail);
    assert MaskJwt(s) == "xxx." + body;
    assert Count("xxx.", '.') == 1 by { CountConcat("xxx", ".", '.'); CountNone("xxx", '.'); }
    assert Count(".xxx", '.') == 1 by { CountConcat(".", "xxx", '.'); CountNone("xxx", '.'); }
    assert Count(tail, '.') >= 1 by { CountConcat(parts[1], ".xxx", '.'); }
    assert Count("." + tail, '.') >= 2 by { CountConcat(".", tail, '.'); }
    assert Count(body, '.') >= 2 by { CountConcat(parts[0], "." + tail, '.'); }
    CountConcat("xxx.", body, '.');
  }

  lemma IndexOfIs(s: string, c: char, n: nat)
    requires n < |s| && s[n] == c && c !in s[..n]
    ensures IndexOf(s, c) == n
  {
    var k := IndexOf(s, c);
    assert forall i | 0 <= i < n :: s[i] in s[..n];
    assert forall i | 0 <= i < k :: s[i] in s[..k];
  }

  // ---- One string ----------------------------------------------------------

  lemma MaskedEmailFacts(s: string)
    requires IsEmail(s)
    ensures IsMaskedEmail(MaskEmail(s)) && '@' in MaskEmail(s)
    ensures MaskEmail(s) == s <==> IsMaskedEmail(s)
  {
    var at := IndexOf(s, '@');
    var local := if at <= 2 then "*" else s[..2] + "***";
    var masked := MaskEmail(s);
    assert masked == local + s[at..];
    assert masked[|local|] == '@';
    assert masked[..|local|] == local;
    assert '@' !in local by {
      if at > 2 { assert s[..2] == s[..at][..2]; }
    }
    IndexOfIs(masked, '@', |local|);
    assert s == s[..at] + s[at..];
    if IsMaskedEmail(s) {
      assert s[..at] == local by {
        if |s[..at]| == 5 { assert s[..at] == s[..at][..2] + s[..at][2..]; }
      }
    }
    if masked == s { assert s[..at] == local; }
  }

  lemma NotHex(s: string, c: char)
    requires c in s && !IsHexDigit(c)
    ensures !IsLongHex(s) && !IsNumeric(s)
  {
  }

  lemma MaskedUserIdFacts(sha256: Digest, s: string)
    ensures 'u' in MaskUserId(sha256, s) && '.' !in MaskUserId(sha256, s) && '@' !in MaskUserId(sha256, s)
  {
    var masked := MaskUserId(sha256, s);
    assert masked[0] == 'u';
    var digest := sha256(s);
    forall c | c in digest[..12] ensures c != '.' && c != '@' { assert c in digest; }
  }

  lemma EmailNeedsAt(s: string)
    requires '@' !in s
    ensures !IsEmail(s)
  {
    assert IndexOf(s, '@') == |s|;
  }

  lemma JwtHasNoAt(s: string)
    requires '@' in s
    ensures !IsJwt(s)
  {
    if IsJwt(s) {
      SplitCoversIn(s, '.', '@');
      assert false;
    }
  }

  /** A character that is not the separator lies in one of the parts. */
  lemma {:induction false} SplitCoversIn(s: string, sep: char, c: char)
    requires c in s && c != sep
    ensures exists i | 0 <= i < |Split(s, sep)| :: c in Split(s, sep)[i]
    decreases |s|
  {
    var n := IndexOf(s, sep);
    var parts := Split(s, sep);
    assert parts[0] == s[..n];
    if c in s[..n] {
      assert c in parts[0];
    } else {
      assert s == s[..n] + [s[n]] + s[n + 1..];
      SplitCoversIn(s[n + 1..], sep, c);
      var i :| 0 <= i < |Split(s[n + 1..], sep)| && c in Split(s[n + 1..], sep)[i];
      assert parts[i + 1] == Split(s[n + 1..], sep)[i];
    }
  }

  /** No pattern recognises the string. */
  predicate Plain(s: string) {
    !IsJwt(s) && !IsLongHex(s) && !IsNumeric(s) && !IsEmail(s)
  }

  lemma MaskedJwtIsPlain(s: string)
    requires IsJwt(s)
    ensures Plain(MaskJwt(s))
  {
    var r := MaskJwt(s);
    MaskedJwtHasThreeDots(s);
    JwtHasTwoDots(r);
    assert r[3] == '.';
    NotHex(r, '.');
    NoAtInMaskedJwt(s);
    EmailNeedsAt(r);
  }

  lemma MaskedUserIdIsPlain(sha256: Digest, s: string)
    ensures Plain(MaskUserId(sha256, s))
  {
    var r := MaskUserId(sha256, s);
    MaskedUserIdFacts(sha256, s);
    NoDotsNoJwt(r);
    NotHex(r, 'u');
    EmailNeedsAt(r);
  }

  lemma MaskedHexIsPlain(s: string)
    requires IsLongHex(s)
    ensures Plain(MaskLongHex(s))
  {
    MaskedHexFacts(s);
    NotHex(MaskLongHex(s), '.');
    EmailNeedsAt(MaskLongHex(s));
  }

  lemma MaskedEmailIsOnlyEmail(s: string)
    requires IsEmail(s)
    ensures IsMaskedEmail(MaskEmail(s))
    ensures !IsJwt(MaskEmail(s)) && !IsLongHex(MaskEmail(s)) && !IsNumeric(MaskEmail(s))
  {
    MaskedEmailFacts(s);
    JwtHasNoAt(MaskEmail(s));
    NotHex(MaskEmail(s), '@');
  }

  lemma RedactedAsIsStorable(sha256: Digest, kind: Kind, s: string)
    ensures StorableAs(kind, RedactAs(sha256, kind, s))
  {
    if kind.sensitive {
    } else if IsJwt(s) {
      MaskedJwtIsPlain(s);
    } else if kind.email && IsEmail(s) {
      MaskedEmailIsOnlyEmail(s);
    } else if kind.userId && IsNumeric(s) {
      MaskedUserIdIsPlain(sha256, s);
    } else if IsLongHex(s) {
      MaskedHexIsPlain(s);
    }
  }

  /** Whatever the string, what is stored in its place may be stored under that key. */
  lemma RedactedIsStorable(sha256: Digest, key: string, s: string)
    ensures Storable(key, RedactString(sha256, key, s))
  {
    RedactedAsIsStorable(sha256, KindOf(key), s);
  }

  lemma NoAtInMaskedJwt(s: string)
    requires IsJwt(s)
    ensures '@' !in MaskJwt(s)
  {
    var parts := Split(s, '.');
    assert AllBase64Url(parts[0]) && AllBase64Url(parts[1]);
  }

  lemma MaskedHexFacts(s: string)
    requires IsLongHex(s)
    ensures '.' in MaskLongHex(s) && '@' !in MaskLongHex(s) && !IsJwt(MaskLongHex(s))
  {
    var r := MaskLongHex(s);
    var head, tail := s[..4], s[|s| - 4..];
    assert r == head + ("..." + tail);
    assert r[4] == '.';
    forall c | c in r ensures c != '@' {
      assert c in head ==> c in s;
      assert c in tail ==> c in s;
    }
    assert Count("...", '.') == 3 by { CountConcat(".", "..", '.'); CountConcat(".", ".", '.'); }
    CountConcat("...", tail, '.');
    CountConcat(head, "..." + tail, '.');
    JwtHasTwoDots(r);
  }

  lemma UnchangedAsIffStorable(sha256: Digest, kind: Kind, s: string)
    ensures RedactAs(sha256, kind, s) == s <==> StorableAs(kind, s)
  {
    RedactedAsIsStorable(sha256, kind, s);
    if IsEmail(s) { MaskedEmailFacts(s); }
  }

  /** The strings that redaction leaves alone are exactly the storable ones. */
  lemma UnchangedIffStorable(sha256: Digest, key: string, s: string)
    ensures RedactString(sha256, key, s) == s <==> Storable(key, s)
  {
    UnchangedAsIffStorable(sha256, KindOf(key), s);
  }

  // ---- What a mask shows ---------------------------------------------------

  lemma SplitAtFirst(a: string, b: string, x: string, y: string, sep: char)
    requires sep !in a && sep !in b && a + [sep] + x == b + [sep] + y
    ensures a == b && x == y
  {
    var s, t := a + [sep] + x, b + [sep] + y;
    assert s[|a|] == sep && t[|b|] == sep;
    assert (forall i | 0 <= i < |a| :: s[i] == a[i]) && (forall i | 0 <= i < |b| :: t[i] == b[i]);
    assert |a| == |b|;
    assert a == s[..|a|] && b == t[..|b|];
    assert x == s[|a| + 1..] && y == t[|b| + 1..];
  }

  function Local(s: string): string {
    s[..IndexOf(s, '@')]
  }

  function Domain(s: string): string {
    s[IndexOf(s, '@')..]
  }

  /** The part of a local part that a mask shows. */
  function Hint(local: string): string {
    if |local| <= 2 then "*" else local[..2] + "***"
  }

  lemma MaskIsHintAndDomain(s: string)
    requires IsEmail(s)
    ensures MaskEmail(s) == Hint(Local(s)) + Domain(s) && '@' !in Hint(Local(s)) && Domain(s)[0] == '@'
  {
    var at := IndexOf(s, '@');
    if at > 2 { assert s[..2] == s[..at][..2]; }
  }

  lemma SplitBeforeFirst(a: string, b: string, x: string, y: string, sep: char)
    requires sep !in a && sep !in b && x != "" && x[0] == sep && y != "" && y[0] == sep
    ensures a + x == b + y <==> a == b && x == y
  {
    assert x == [sep] + x[1..] && y == [sep] + y[1..];
    assert a + x == a + [sep] + x[1..] && b + y == b + [sep] + y[1..];
    if a + x == b + y { SplitAtFirst(a, b, x[1..], y[1..], sep); }
  }

  /** Two emails have one mask exactly when domain and hint agree: the rest of the local part is hidden. */
  lemma MaskedEmailShows(s: string, t: string)
    requires IsEmail(s) && IsEmail(t)
    ensures MaskEmail(s) == MaskEmail(t) <==> Domain(s) == Domain(t) && Hint(Local(s)) == Hint(Local(t))
  {
    MaskIsHintAndDomain(s);
    MaskIsHintAndDomain(t);
    SplitBeforeFirst(Hint(Local(s)), Hint(Local(t)), Domain(s), Domain(t), '@');
  }

  /** Two long hex strings have one mask exactly when their first and last four digits agree. */
  lemma MaskedHexShows(s: string, t: string)
    requires IsLongHex(s) && IsLongHex(t)
    ensures MaskLongHex(s) == MaskLongHex(t) <==> s[..4] == t[..4] && s[|s| - 4..] == t[|t| - 4..]
  {
    var a, b := MaskLongHex(s), MaskLongHex(t);
    assert a[..4] == s[..4] && a[7..] == s[|s| - 4..];
    assert b[..4] == t[..4] && b[7..] == t[|t| - 4..];
  }

  lemma {:induction false} PartsHaveNoSeparator(s: string, c: char)
    ensures forall i | 0 <= i < |Split(s, c)| :: c !in Split(s, c)[i]
    decreases |s|
  {
    var n := IndexOf(s, c);
    if n == |s| { assert s[..n] == s; } else { PartsHaveNoSeparator(s[n + 1..], c); }
  }

  lemma TwoPartsShow(p0: string, p1: string, q0: string, q1: string)
    requires '.' !in p0 && '.' !in q0
    ensures "xxx." + p0 + "." + p1 + ".xxx" == "xxx." + q0 + "." + q1 + ".xxx" <==> p0 == q0 && p1 == q1
  {
    var x, y := "." + (p1 + ".xxx"), "." + (q1 + ".xxx");
    var a, b := "xxx." + p0 + "." + p1 + ".xxx", "xxx." + q0 + "." + q1 + ".xxx";
    assert a == "xxx." + (p0 + x) && b == "xxx." + (q0 + y);
    assert a[4..] == p0 + x && b[4..] == q0 + y;
    SplitBeforeFirst(p0, q0, x, y, '.');
    assert x[1..|x| - 4] == p1 && y[1..|y| - 4] == q1;
  }

  /** Two JWTs have one mask exactly when header and payload agree: only the signature is hidden. */
  lemma MaskedJwtShows(s: string, t: string)
    requires IsJwt(s) && IsJwt(t)
    ensures MaskJwt(s) == MaskJwt(t) <==> Split(s, '.')[0] == Split(t, '.')[0] && Split(s, '.')[1] == Split(t, '.')[1]
  {
    PartsHaveNoSeparator(s, '.');
    PartsHaveNoSeparator(t, '.');
    TwoPartsShow(Split(s, '.')[0], Split(s, '.')[1], Split(t, '.')[0], Split(t, '.')[1]);
  }
}
