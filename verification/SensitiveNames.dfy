/**
  Which names are sensitive, letter by letter, and what becomes of the strings
  that are stored under them.
 */
module SensitiveNames {
  import opened Options
  import opened RedactionStrings
  import opened Redaction
  import opened RedactionTheorems

  // ---- Words in a name -----------------------------------------------------

  /** `x` is the word, in whatever capitals. */
  ghost predicate Says(x: string, word: string) {
    && |x| == |word|
    && forall i | 0 <= i < |x| :: x[i] == word[i] || ('A' <= x[i] <= 'Z' && x[i] as int + 32 == word[i] as int)
  }

  ghost predicate Contains(name: string, word: string) {
    exists a: string, x: string, b: string :: SaysWithin(name, a, x, b, word)
  }

  ghost predicate SaysWithin(name: string, a: string, x: string, b: string, word: string) {
    name == a + x + b && Says(x, word)
  }

  ghost predicate Ends(name: string, word: string) {
    exists a: string, x: string :: name == a + x && Says(x, word)
  }

  predicate NoCapitals(word: string) {
    forall c | c in word :: !('A' <= c <= 'Z')
  }

  lemma LowersTo(x: string, word: string)
    requires NoCapitals(word)
    ensures LowerAll(x) == word <==> Says(x, word)
  {
    if LowerAll(x) == word {
      forall i | 0 <= i < |x|
        ensures x[i] == word[i] || ('A' <= x[i] <= 'Z' && x[i] as int + 32 == word[i] as int)
      {
        assert Lower(x[i]) == word[i];
      }
    }
    if Says(x, word) {
      forall i | 0 <= i < |x| ensures Lower(x[i]) == word[i] { assert word[i] in word; }
    }
  }

  lemma LowerParts(a: string, b: string)
    ensures LowerAll(a + b) == LowerAll(a) + LowerAll(b)
  {
  }

  lemma {:induction false} IncludesAt(a: string, word: string, b: string)
    ensures Includes(a + word + b, word)
    decreases |a|
  {
    var s := a + word + b;
    if a == "" {
      assert s == word + b && word <= s;
    } else {
      assert s[1..] == a[1..] + word + b;
      IncludesAt(a[1..], word, b);
    }
  }

  lemma {:induction false} FindWord(s: string, word: string) returns (k: nat)
    requires Includes(s, word)
    ensures k + |word| <= |s| && s[k..k + |word|] == word
    decreases |s|
  {
    if word <= s {
      k := 0;
    } else {
      var j := FindWord(s[1..], word);
      k := j + 1;
      assert s[k..k + |word|] == s[1..][j..j + |word|];
    }
  }

  lemma LowerSlice(s: string, i: nat, j: nat)
    requires i <= j <= |s|
    ensures LowerAll(s)[i..j] == LowerAll(s[i..j])
  {
  }

  lemma IncludesIffContains(name: string, word: string)
    requires NoCapitals(word)
    ensures Includes(LowerAll(name), word) <==> Contains(name, word)
  {
    if Includes(LowerAll(name), word) {
      var k := FindWord(LowerAll(name), word);
      LowerSlice(name, k, k + |word|);
      var x := name[k..k + |word|];
      LowersTo(x, word);
      assert SaysWithin(name, name[..k], x, name[k + |word|..], word);
    }
    if a: string, x: string, b: string :| SaysWithin(name, a, x, b, word) {
      LowersTo(x, word);
      LowerParts(a + x, b);
      LowerParts(a, x);
      IncludesAt(LowerAll(a), word, LowerAll(b));
    }
  }

  lemma EndsIff(name: string, word: string)
    requires NoCapitals(word)
    ensures EndsWith(LowerAll(name), word) <==> Ends(name, word)
  {
    if EndsWith(LowerAll(name), word) {
      var k := |name| - |word|;
      LowerSlice(name, k, |name|);
      assert name[k..|name|] == name[k..] && LowerAll(name)[k..|name|] == LowerAll(name)[k..];
      LowersTo(name[k..], word);
      assert name == name[..k] + name[k..];
    }
    if a: string, x: string :| name == a + x && Says(x, word) {
      LowersTo(x, word);
      LowerParts(a, x);
    }
  }

  // ---- The tables ----------------------------------------------------------

  ghost predicate HasWord(name: string) {
    || Contains(name, "secret") || Contains(name, "password") || Contains(name, "passphrase")
    || Contains(name, "credential") || Contains(name, "encrypt") || Contains(name, "cipher")
    || Contains(name, "signature") || Contains(name, "privatekey") || Contains(name, "apikey")
    || Contains(name, "bearer") || Contains(name, "authorization")
  }

  ghost predicate ContainsOneOf(name: string, words: seq<string>) {
    exists i | 0 <= i < |words| :: Contains(name, words[i])
  }

  lemma WordsAreLower(i: nat)
    requires i < |SENSITIVE_WORDS|
    ensures NoCapitals(SENSITIVE_WORDS[i])
  {
  }

  lemma WordsSpelled(name: string)
    ensures ContainsOneOf(name, SENSITIVE_WORDS) <==> HasWord(name)
  {
    var w := SENSITIVE_WORDS;
    assert |w| == 11;
    assert w[0] == "secret";
    assert w[1] == "password";
    assert w[2] == "passphrase";
    assert w[3] == "credential";
    assert w[4] == "encrypt";
    assert w[5] == "cipher";
    assert w[6] == "signature";
    assert w[7] == "privatekey";
    assert w[8] == "apikey";
    assert w[9] == "bearer";
    assert w[10] == "authorization";
    if Contains(name, w[0]) || Contains(name, w[1]) || Contains(name, w[2]) || Contains(name, w[3])
       || Contains(name, w[4]) || Contains(name, w[5]) || Contains(name, w[6]) || Contains(name, w[7])
       || Contains(name, w[8]) || Contains(name, w[9]) || Contains(name, w[10]) {
      assert ContainsOneOf(name, w);
    }
  }

  lemma PatternsSpelled(name: string)
    ensures (exists i | 0 <= i < |SENSITIVE_WORDS| :: Includes(LowerAll(name), SENSITIVE_WORDS[i])) <==> HasWord(name)
  {
    forall i | 0 <= i < |SENSITIVE_WORDS|
      ensures Includes(LowerAll(name), SENSITIVE_WORDS[i]) <==> Contains(name, SENSITIVE_WORDS[i])
    {
      WordsAreLower(i);
      IncludesIffContains(name, SENSITIVE_WORDS[i]);
    }
    WordsSpelled(name);
  }

  lemma Holds(name: string, a: string, x: string, b: string, word: string)
    requires name == a + x + b && Says(x, word)
    ensures Contains(name, word)
  {
    assert SaysWithin(name, a, x, b, word);
  }

  lemma EndsOn(name: string, a: string, x: string, word: string)
    requires name == a + x && Says(x, word)
    ensures Ends(name, word)
  {
  }

  lemma TokenNames1(name: string)
    requires name == "token" || name == "accessToken" || name == "refreshToken" || name == "resetToken"
    ensures Ends(name, "token")
  {
    if name == "token" { EndsOn(name, "", "token", "token"); }
    if name == "accessToken" { EndsOn(name, "access", "Token", "token"); }
    if name == "refreshToken" { EndsOn(name, "refresh", "Token", "token"); }
    if name == "resetToken" { EndsOn(name, "reset", "Token", "token"); }
  }

  lemma TokenNames2(name: string)
    requires name == "passwordResetToken" || name == "bearerToken" || name == "authToken" || name == "jwtToken"
    ensures Ends(name, "token")
  {
    if name == "passwordResetToken" { EndsOn(name, "passwordReset", "Token", "token"); }
    if name == "bearerToken" { EndsOn(name, "bearer", "Token", "token"); }
    if name == "authToken" { EndsOn(name, "auth", "Token", "token"); }
    if name == "jwtToken" { EndsOn(name, "jwt", "Token", "token"); }
  }

  lemma TokenNames3(name: string)
    requires name == "inviteToken" || name == "sessionToken"
    ensures Ends(name, "token")
  {
    if name == "inviteToken" { EndsOn(name, "invite", "Token", "token"); }
    if name == "sessionToken" { EndsOn(name, "session", "Token", "token"); }
  }

  lemma PasswordNames(name: string)
    requires name == "password" || name == "passwordHash" || name == "newPassword" || name == "currentPassword"
    ensures Contains(name, "password")
  {
    if name == "password" { Holds(name, "", "password", "", "password"); }
    if name == "passwordHash" { Holds(name, "", "password", "Hash", "password"); }
    if name == "newPassword" { Holds(name, "new", "Password", "", "password"); }
    if name == "currentPassword" { Holds(name, "current", "Password", "", "password"); }
  }

  lemma PassphraseNames(name: string)
    requires name == "passphrase"
    ensures Contains(name, "passphrase")
  {
    if name == "passphrase" { Holds(name, "", "passphrase", "", "passphrase"); }
  }

  lemma CredentialNames(name: string)
    requires name == "credential"
    ensures Contains(name, "credential")
  {
    if name == "credential" { Holds(name, "", "credential", "", "credential"); }
  }

  lemma SecretNames1(name: string)
    requires name == "secret" || name == "apiSecret" || name == "clientSecret" || name == "signingSecret"
    ensures Contains(name, "secret")
  {
    if name == "secret" { Holds(name, "", "secret", "", "secret"); }
    if name == "apiSecret" { Holds(name, "api", "Secret", "", "secret"); }
    if name == "clientSecret" { Holds(name, "client", "Secret", "", "secret"); }
    if name == "signingSecret" { Holds(name, "signing", "Secret", "", "secret"); }
  }

  lemma SecretNames2(name: string)
    requires name == "webhookSecret" || name == "stellarSecret"
    ensures Contains(name, "secret")
  {
    if name == "webhookSecret" { Holds(name, "webhook", "Secret", "", "secret"); }
    if name == "stellarSecret" { Holds(name, "stellar", "Secret", "", "secret"); }
  }

  lemma EncryptNames1(name: string)
    requires name == "encryptionKey" || name == "encryptedPayload" || name == "encryptedData" || name == "encryptedContent"
    ensures Contains(name, "encrypt")
  {
    if name == "encryptionKey" { Holds(name, "", "encrypt", "ionKey", "encrypt"); }
    if name == "encryptedPayload" { Holds(name, "", "encrypt", "edPayload", "encrypt"); }
    if name == "encryptedData" { Holds(name, "", "encrypt", "edData", "encrypt"); }
    if name == "encryptedContent" { Holds(name, "", "encrypt", "edContent", "encrypt"); }
  }

  lemma EncryptNames2(name: string)
    requires name == "rawEncrypted" || name == "encryptedBody"
    ensures Contains(name, "encrypt")
  {
    if name == "rawEncrypted" { Holds(name, "raw", "Encrypt", "ed", "encrypt"); }
    if name == "encryptedBody" { Holds(name, "", "encrypt", "edBody", "encrypt"); }
  }

  lemma PrivateKeyNames(name: string)
    requires name == "privateKey"
    ensures Contains(name, "privatekey")
  {
    if name == "privateKey" { Holds(name, "", "privateKey", "", "privatekey"); }
  }

  lemma ApiKeyNames(name: string)
    requires name == "apiKey"
    ensures Contains(name, "apikey")
  {
    if name == "apiKey" { Holds(name, "", "apiKey", "", "apikey"); }
  }

  lemma CipherNames(name: string)
    requires name == "ciphertext"
    ensures Contains(name, "cipher")
  {
    if name == "ciphertext" { Holds(name, "", "cipher", "text", "cipher"); }
  }

  lemma SignatureNames(name: string)
    requires name == "signature" || name == "digitalSignature"
    ensures Contains(name, "signature")
  {
    if name == "signature" { Holds(name, "", "signature", "", "signature"); }
    if name == "digitalSignature" { Holds(name, "digital", "Signature", "", "signature"); }
  }

  lemma AuthorizationNames(name: string)
    requires name == "authorization"
    ensures Contains(name, "authorization")
  {
    if name == "authorization" { Holds(name, "", "authorization", "", "authorization"); }
  }

  // The names that the list of the source spells out, a few at a time.

  ghost predicate Listed1(name: string) {
    name == "token" || name == "accessToken" || name == "refreshToken" || name == "resetToken" || name == "passwordResetToken"
  }

  ghost predicate Listed2(name: string) {
    name == "bearerToken" || name == "authToken" || name == "jwtToken" || name == "inviteToken" || name == "sessionToken"
  }

  ghost predicate Listed3(name: string) {
    name == "password" || name == "passwordHash" || name == "newPassword" || name == "currentPassword" || name == "passphrase"
  }

  ghost predicate Listed4(name: string) {
    name == "credential" || name == "secret" || name == "apiSecret" || name == "clientSecret" || name == "signingSecret"
  }

  ghost predicate Listed5(name: string) {
    name == "encryptionKey" || name == "privateKey" || name == "apiKey" || name == "webhookSecret" || name == "stellarSecret"
  }

  ghost predicate Listed6(name: string) {
    name == "encryptedPayload" || name == "encryptedData" || name == "encryptedContent"
    || name == "rawEncrypted" || name == "ciphertext"
  }

  ghost predicate Listed7(name: string) {
    name == "encryptedBody" || name == "signature" || name == "signedMessage"
    || name == "digitalSignature" || name == "authorization"
  }

  ghost predicate Listed(name: string) {
    Listed1(name) || Listed2(name) || Listed3(name) || Listed4(name) || Listed5(name) || Listed6(name) || Listed7(name)
  }

  ghost predicate At5(name: string, from: nat)
    requires from + 5 <= |SENSITIVE_EXACT_FIELDS|
  {
    exists i | from <= i < from + 5 :: SENSITIVE_EXACT_FIELDS[i] == name
  }

  lemma ListSpelled1(name: string)
    ensures At5(name, 0) <==> Listed1(name)
  {
    var f := SENSITIVE_EXACT_FIELDS;
    assert f[0] == "token";
    assert f[1] == "accessToken";
    assert f[2] == "refreshToken";
    assert f[3] == "resetToken";
    assert f[4] == "passwordResetToken";
  }

  lemma ListSpelled2(name: string)
    ensures At5(name, 5) <==> Listed2(name)
  {
    var f := SENSITIVE_EXACT_FIELDS;
    assert f[5] == "bearerToken";
    assert f[6] == "authToken";
    assert f[7] == "jwtToken";
    assert f[8] == "inviteToken";
    assert f[9] == "sessionToken";
  }

  lemma ListSpelled3(name: string)
    ensures At5(name, 10) <==> Listed3(name)
  {
    var f := SENSITIVE_EXACT_FIELDS;
    assert f[10] == "password";
    assert f[11] == "passwordHash";
    assert f[12] == "newPassword";
    assert f[13] == "currentPassword";
    assert f[14] == "passphrase";
  }

  lemma ListSpelled4(name: string)
    ensures At5(name, 15) <==> Listed4(name)
  {
    var f := SENSITIVE_EXACT_FIELDS;
    assert f[15] == "credential";
    assert f[16] == "secret";
    assert f[17] == "apiSecret";
    assert f[18] == "clientSecret";
    assert f[19] == "signingSecret";
  }

  lemma ListSpelled5(name: string)
    ensures At5(name, 20) <==> Listed5(name)
  {
    var f := SENSITIVE_EXACT_FIELDS;
    assert f[20] == "encryptionKey";
    assert f[21] == "privateKey";
    assert f[22] == "apiKey";
    assert f[23] == "webhookSecret";
    assert f[24] == "stellarSecret";
  }

  lemma ListSpelled6(name: string)
    ensures At5(name, 25) <==> Listed6(name)
  {
    var f := SENSITIVE_EXACT_FIELDS;
    assert f[25] == "encryptedPayload";
    assert f[26] == "encryptedData";
    assert f[27] == "encryptedContent";
    assert f[28] == "rawEncrypted";
    assert f[29] == "ciphertext";
  }

  lemma ListSpelled7(name: string)
    ensures At5(name, 30) <==> Listed7(name)
  {
    var f := SENSITIVE_EXACT_FIELDS;
    assert f[30] == "encryptedBody";
    assert f[31] == "signature";
    assert f[32] == "signedMessage";
    assert f[33] == "digitalSignature";
    assert f[34] == "authorization";
  }

  lemma ListInParts(name: string)
    ensures |SENSITIVE_EXACT_FIELDS| == 35
    ensures name in SENSITIVE_EXACT_FIELDS <==>
              At5(name, 0) || At5(name, 5) || At5(name, 10) || At5(name, 15) || At5(name, 20) || At5(name, 25) || At5(name, 30)
  {
  }

  /** The list holds these names and no other. */
  lemma ListSpelled(name: string)
    ensures OneOf(name, SENSITIVE_EXACT_FIELDS) <==> Listed(name)
  {
    OneOfIsIn(name, SENSITIVE_EXACT_FIELDS);
    ListInParts(name);
    ListSpelled1(name);
    ListSpelled2(name);
    ListSpelled3(name);
    ListSpelled4(name);
    ListSpelled5(name);
    ListSpelled6(name);
    ListSpelled7(name);
  }

  lemma ListedHasWord1(name: string)
    requires Listed1(name) && name != "signedMessage"
    ensures HasWord(name) || Ends(name, "token")
  {
    if name == "token" || name == "accessToken" || name == "refreshToken" || name == "resetToken" { TokenNames1(name); }
    if name == "passwordResetToken" { TokenNames2(name); }
  }

  lemma ListedHasWord2(name: string)
    requires Listed2(name) && name != "signedMessage"
    ensures HasWord(name) || Ends(name, "token")
  {
    if name == "bearerToken" || name == "authToken" || name == "jwtToken" { TokenNames2(name); }
    if name == "inviteToken" || name == "sessionToken" { TokenNames3(name); }
  }

  lemma ListedHasWord3(name: string)
    requires Listed3(name) && name != "signedMessage"
    ensures HasWord(name) || Ends(name, "token")
  {
    if name == "password" || name == "passwordHash" || name == "newPassword" || name == "currentPassword" { PasswordNames(name); }
    if name == "passphrase" { PassphraseNames(name); }
  }

  lemma ListedHasWord4(name: string)
    requires Listed4(name) && name != "signedMessage"
    ensures HasWord(name) || Ends(name, "token")
  {
    if name == "credential" { CredentialNames(name); }
    if name == "secret" || name == "apiSecret" || name == "clientSecret" || name == "signingSecret" { SecretNames1(name); }
  }

  lemma ListedHasWord5(name: string)
    requires Listed5(name) && name != "signedMessage"
    ensures HasWord(name) || Ends(name, "token")
  {
    if name == "encryptionKey" { EncryptNames1(name); }
    if name == "privateKey" { PrivateKeyNames(name); }
    if name == "apiKey" { ApiKeyNames(name); }
    if name == "webhookSecret" || name == "stellarSecret" { SecretNames2(name); }
  }

  lemma ListedHasWord6(name: string)
    requires Listed6(name) && name != "signedMessage"
    ensures HasWord(name) || Ends(name, "token")
  {
    if name == "encryptedPayload" || name == "encryptedData" || name == "encryptedContent" { EncryptNames1(name); }
    if name == "rawEncrypted" { EncryptNames2(name); }
    if name == "ciphertext" { CipherNames(name); }
  }

  lemma ListedHasWord7(name: string)
    requires Listed7(name) && name != "signedMessage"
    ensures HasWord(name) || Ends(name, "token")
  {
    if name == "encryptedBody" { EncryptNames2(name); }
    if name == "signature" || name == "digitalSignature" { SignatureNames(name); }
    if name == "authorization" { AuthorizationNames(name); }
  }

  // ---- Main results --------------------------------------------------------

  /**
    A name is sensitive exactly when it holds one of eleven words in whatever
    capitals, or ends in "token", or is "signedMessage": the only name of the list
    that the patterns would miss.
   */
  lemma SensitiveIff(name: string)
    ensures IsSensitiveField(name) <==> name == "signedMessage" || Ends(name, "token") || HasWord(name)
  {
    PatternsSpelled(name);
    EndsIff(name, "token");
    if EndsWith(LowerAll(name), "_token") { UnderscoreIsMore(name); }
    ListMatters(name);
  }

  lemma ListMatters(name: string)
    ensures OneOf(name, SENSITIVE_EXACT_FIELDS) ==> name == "signedMessage" || Ends(name, "token") || HasWord(name)
    ensures name == "signedMessage" ==> OneOf(name, SENSITIVE_EXACT_FIELDS)
  {
    ListSpelled(name);
    if name == "signedMessage" { assert Listed7(name); }
    else {
      if Listed1(name) { ListedHasWord1(name); }
      if Listed2(name) { ListedHasWord2(name); }
      if Listed3(name) { ListedHasWord3(name); }
      if Listed4(name) { ListedHasWord4(name); }
      if Listed5(name) { ListedHasWord5(name); }
      if Listed6(name) { ListedHasWord6(name); }
      if Listed7(name) { ListedHasWord7(name); }
    }
  }

  lemma UnderscoreIsMore(name: string)
    requires EndsWith(LowerAll(name), "_token")
    ensures EndsWith(LowerAll(name), "token")
  {
    var low := LowerAll(name);
    assert low[|low| - 5..] == low[|low| - 6..][1..];
    assert "_token"[1..] == "token";
  }

  /** The other names that matter. */
  lemma EmailKeyIff(key: string)
    ensures IsEmailKey(key) <==> Contains(key, "email") || Says(key, "sender") || Says(key, "recipient")
  {
    IncludesIffContains(key, "email");
    LowersTo(key, "sender");
    LowersTo(key, "recipient");
  }

  lemma UserIdKeyIff(key: string)
    ensures IsUserIdKey(key) <==> key == "userId" || key == "targetUserId"
  {
  }

  /** Names with a sensitive word in them, whatever stands around it. */
  lemma WordMakesSensitive(a: string, x: string, b: string, word: string)
    requires Says(x, word)
    requires || word == "secret" || word == "password" || word == "passphrase" || word == "credential"
             || word == "encrypt" || word == "cipher" || word == "signature" || word == "privatekey"
             || word == "apikey" || word == "bearer" || word == "authorization"
    ensures IsSensitiveField(a + x + b)
  {
    Holds(a + x + b, a, x, b, word);
    SensitiveIff(a + x + b);
  }

  lemma TokenMakesSensitive(a: string, x: string)
    requires Says(x, "token")
    ensures IsSensitiveField(a + x)
  {
    EndsOn(a + x, a, x, "token");
    SensitiveIff(a + x);
  }

  // ---- In a tree -----------------------------------------------------------

  /**
    A string anywhere in the metadata that is met under such a name is stored as
    the marker, and nothing of it is left.
   */
  lemma SensitiveStringsAreMarked(sha256: Digest, metadata: Value, path: seq<string>, s: string)
    requires metadata.Obj? || metadata.Arr?
    requires PROTO !in path && At(metadata, path) == Some(Str(s))
    requires var name := Along(TOP, metadata, path).key;
             name == "signedMessage" || Ends(name, "token") || HasWord(name)
    ensures At(Redacted(sha256, metadata), path) == Some(Str("[REDACTED]"))
  {
    SensitiveIff(Along(TOP, metadata, path).key);
    StringsAreRedacted(sha256, metadata, path, s);
  }

  lemma {:induction false} FindsEntry(entries: seq<Entry>, i: nat)
    requires i < |entries| && DistinctKeys(entries)
    ensures Find(entries, entries[i].key) == Some(entries[i].value)
    decreases i
  {
    if i > 0 {
      assert entries[1..][i - 1] == entries[i];
      FindsEntry(entries[1..], i - 1);
    }
  }

  lemma EntryIsAt(entries: seq<Entry>, i: nat)
    requires i < |entries| && DistinctKeys(entries)
    ensures At(Obj(entries), [entries[i].key]) == Some(entries[i].value)
    ensures Along(TOP, Obj(entries), [entries[i].key]).key == entries[i].key
  {
    FindsEntry(entries, i);
    assert [entries[i].key][1..] == [];
  }

  /** So is every string that is an entry of the metadata itself. */
  lemma SensitiveEntriesAreMarked(sha256: Digest, entries: seq<Entry>, i: nat)
    requires i < |entries| && DistinctKeys(entries) && entries[i].value.Str? && entries[i].key != PROTO
    requires var name := entries[i].key; name == "signedMessage" || Ends(name, "token") || HasWord(name)
    ensures At(Redacted(sha256, Obj(entries)), [entries[i].key]) == Some(Str("[REDACTED]"))
  {
    EntryIsAt(entries, i);
    SensitiveStringsAreMarked(sha256, Obj(entries), [entries[i].key], entries[i].value.s);
  }
}
