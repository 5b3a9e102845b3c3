/**
  Which strings the redaction recognises by their form, and what it makes of
  them, letter by letter.
 */
module SensitiveValues {
  import opened Options
  import opened RedactionStrings
  import opened Redaction
  import opened RedactionTheorems
  import opened SensitiveNames

  // ---- Forms ---------------------------------------------------------------

  ghost predicate Letters(s: string) {
    s != "" && forall c | c in s :: '0' <= c <= '9' || 'a' <= c <= 'z' || 'A' <= c <= 'Z' || c == '-' || c == '_'
  }

  /** `s` is `a.b.c`, of letters, digits, `-` and `_`. */
  ghost predicate JwtForm(s: string, a: string, b: string, c: string) {
    s == a + "." + b + "." + c && Letters(a) && Letters(b) && Letters(c)
  }

  lemma SplitFirst(a: string, rest: string, c: char)
    requires c !in a
    ensures Split(a + [c] + rest, c) == [a] + Split(rest, c)
  {
    var s := a + [c] + rest;
    assert s[..|a|] == a && s[|a|] == c && s[|a| + 1..] == rest;
    IndexOfIs(s, c, |a|);
  }

  lemma SplitNone(a: string, c: char)
    requires c !in a
    ensures Split(a, c) == [a]
  {
    assert forall i | 0 <= i < |a| :: a[i] in a;
    assert IndexOf(a, c) == |a|;
  }

  lemma SplitThree(a: string, b: string, c: string)
    requires '.' !in a && '.' !in b && '.' !in c
    ensures Split(a + "." + b + "." + c, '.') == [a, b, c]
  {
    assert a + "." + b + "." + c == a + ['.'] + (b + ['.'] + c);
    SplitFirst(a, b + ['.'] + c, '.');
    SplitFirst(b, c, '.');
    SplitNone(c, '.');
  }

  lemma Unsplit(s: string, c: char) returns (rest: string)
    requires |Split(s, c)| > 1
    ensures s == Split(s, c)[0] + [c] + rest && Split(s, c)[1..] == Split(rest, c)
  {
    var n := IndexOf(s, c);
    rest := s[n + 1..];
    assert s == s[..n] + [s[n]] + rest;
  }

  lemma ThreeParts(s: string)
    requires |Split(s, '.')| == 3
    ensures var parts := Split(s, '.'); s == parts[0] + "." + parts[1] + "." + parts[2]
  {
    var parts := Split(s, '.');
    var rest := Unsplit(s, '.');
    var last := Unsplit(rest, '.');
    assert Split(rest, '.')[0] == parts[1] && Split(last, '.') == parts[2..];
    LastPart(last, '.');
    assert s == parts[0] + ['.'] + (parts[1] + ['.'] + parts[2]);
  }

  lemma LastPart(s: string, c: char)
    requires |Split(s, c)| == 1
    ensures Split(s, c)[0] == s
  {
    SplitCounts(s, c);
  }

  /** A token has three parts, and a string is taken for one exactly when it has. */
  lemma JwtIff(s: string)
    ensures IsJwt(s) <==> exists a, b, c :: JwtForm(s, a, b, c)
  {
    if IsJwt(s) {
      ThreeParts(s);
      var parts := Split(s, '.');
      assert JwtForm(s, parts[0], parts[1], parts[2]);
    }
    if a, b, c :| JwtForm(s, a, b, c) {
      SplitThree(a, b, c);
    }
  }

  /** The mask keeps the first two parts. */
  lemma JwtMask(s: string, a: string, b: string, c: string)
    requires JwtForm(s, a, b, c)
    ensures IsJwt(s) && MaskJwt(s) == "xxx." + a + "." + b + ".xxx"
  {
    JwtIff(s);
    SplitThree(a, b, c);
  }

  /** No white space, and nothing but one `@`. */
  ghost predicate Word(s: string) {
    s != "" && forall c | c in s :: c != '@' && !IsSpace(c)
  }

  /** `s` is `local@host.zone`, without white space and further `@`. */
  ghost predicate EmailForm(s: string, local: string, host: string, zone: string) {
    s == local + "@" + host + "." + zone && Word(local) && Word(host) && Word(zone)
  }

  lemma EmailIff(s: string)
    ensures IsEmail(s) <==> exists local, host, zone :: EmailForm(s, local, host, zone)
  {
    if IsEmail(s) {
      var at := IndexOf(s, '@');
      var dot :| at + 1 < dot < |s| - 1 && s[dot] == '.';
      var local, host, zone := s[..at], s[at + 1..dot], s[dot + 1..];
      assert s == local + "@" + host + "." + zone;
      forall c | c in host || c in zone ensures c != '@' {
        assert c in s[at + 1..];
      }
      assert Word(local) && Word(host) && Word(zone);
      assert EmailForm(s, local, host, zone);
    }
    if local, host, zone :| EmailForm(s, local, host, zone) { FormIsEmail(s, local, host, zone); }
  }

  lemma FormIsEmail(s: string, local: string, host: string, zone: string)
    requires EmailForm(s, local, host, zone)
    ensures IsEmail(s) && IndexOf(s, '@') == |local|
  {
    var n := |local|;
    assert s[..n] == local && s[n] == '@' && s[n + 1..] == host + "." + zone;
    IndexOfIs(s, '@', n);
    var dot := n + 1 + |host|;
    assert s[dot] == '.';
    forall c | c in s ensures !IsSpace(c) {
      assert c in local || c == '@' || c in host || c == '.' || c in zone;
    }
  }

  /** The mask keeps the host, and two characters of a local part that has more. */
  lemma EmailMask(s: string, local: string, host: string, zone: string)
    requires EmailForm(s, local, host, zone)
    ensures MaskEmail(s) == (if |local| <= 2 then "*" else local[..2] + "***") + "@" + host + "." + zone
  {
    FormIsEmail(s, local, host, zone);
    var n := |local|;
    assert s[n..] == "@" + host + "." + zone;
    assert |local| > 2 ==> s[..2] == local[..2];
  }

  /** White space is what ECMAScript takes for it. */
  lemma SpacesAre(c: char)
    ensures IsSpace(c) <==>
              || c == ' ' || c == '\t' || c == '\n' || c == '\U{000B}' || c == '\U{000C}' || c == '\r'
              || c == '\U{00A0}' || c == '\U{1680}' || c == '\U{2000}' || c == '\U{2001}' || c == '\U{2002}'
              || c == '\U{2003}' || c == '\U{2004}' || c == '\U{2005}' || c == '\U{2006}' || c == '\U{2007}'
              || c == '\U{2008}' || c == '\U{2009}' || c == '\U{200A}' || c == '\U{2028}' || c == '\U{2029}'
              || c == '\U{202F}' || c == '\U{205F}' || c == '\U{3000}' || c == '\U{FEFF}'
  {
  }

  lemma HexIff(s: string)
    ensures IsLongHex(s) <==>
              |s| >= 40 && forall c | c in s :: '0' <= c <= '9' || 'a' <= c <= 'f' || 'A' <= c <= 'F'
  {
  }

  lemma NumericIff(s: string)
    ensures IsNumeric(s) <==> s != "" && forall c | c in s :: '0' <= c <= '9'
  {
  }

  // ---- What is stored ------------------------------------------------------

  /** What becomes of a string, in the order of the tests. */
  ghost predicate Becomes(sha256: Digest, key: string, s: string, r: string) {
    if key == "signedMessage" || Ends(key, "token") || HasWord(key) then r == "[REDACTED]"
    else if exists a, b, c :: JwtForm(s, a, b, c) then
      exists a, b, c :: JwtForm(s, a, b, c) && r == "xxx." + a + "." + b + ".xxx"
    else if (Contains(key, "email") || Says(key, "sender") || Says(key, "recipient"))
            && exists local, host, zone :: EmailForm(s, local, host, zone) then
      exists local, host, zone :: EmailForm(s, local, host, zone) &&
        r == (if |local| <= 2 then "*" else local[..2] + "***") + "@" + host + "." + zone
    else if (key == "userId" || key == "targetUserId") && IsNumeric(s) then r == "user_" + sha256(s)[..12]
    else if IsLongHex(s) then r == s[..4] + "..." + s[|s| - 4..]
    else r == s
  }

  lemma StringBecomes(sha256: Digest, key: string, s: string)
    ensures Becomes(sha256, key, s, RedactString(sha256, key, s))
  {
    SensitiveIff(key);
    JwtIff(s);
    EmailKeyIff(key);
    EmailIff(s);
    if a, b, c :| JwtForm(s, a, b, c) { JwtMask(s, a, b, c); }
    if local, host, zone :| EmailForm(s, local, host, zone) { EmailMask(s, local, host, zone); }
  }

  /** And so for every string of a tree, under the key that it is met with. */
  lemma StoredStringBecomes(sha256: Digest, metadata: Value, path: seq<string>, s: string) returns (r: string)
    requires metadata.Obj? || metadata.Arr?
    requires PROTO !in path && At(metadata, path) == Some(Str(s))
    ensures At(Redacted(sha256, metadata), path) == Some(Str(r))
    ensures Becomes(sha256, Along(TOP, metadata, path).key, s, r)
  {
    var key := Along(TOP, metadata, path).key;
    r := RedactString(sha256, key, s);
    StringsAreRedacted(sha256, metadata, path, s);
    StringBecomes(sha256, key, s);
  }

  /** Metadata that is no object is stored as it is, and missing metadata as null. */
  lemma OtherMetadata(sha256: Digest, metadata: Value)
    requires !metadata.Obj? && !metadata.Arr?
    ensures Redacted(sha256, metadata) == if metadata.Undefined? then Null else metadata
  {
  }

  // ---- Indexes -------------------------------------------------------------

  function NumberOf(digits: string): int {
    if digits == "" then 0
    else 10 * NumberOf(digits[..|digits| - 1]) + (digits[|digits| - 1] as int - '0' as int)
  }

  /** The name of an index is its decimal numeral. */
  lemma {:induction false} IndexKeyIsDecimal(i: nat)
    ensures forall c | c in IndexKey(i) :: '0' <= c <= '9'
    ensures NumberOf(IndexKey(i)) == i && (i > 0 ==> IndexKey(i)[0] != '0') && (i == 0 ==> |IndexKey(i)| == 1)
  {
    var key := IndexKey(i);
    if i < 10 {
      assert key[..0] == "" && NumberOf("") == 0;
    } else {
      IndexKeyIsDecimal(i / 10);
      assert key[..|key| - 1] == IndexKey(i / 10);
    }
  }
}
