/**
  The canonical form that a create request is hashed under, and the key it is
  stored under.  JSON text and SHA-256 are taken as injective, so the hash of a
  payload is modelled by its canonical form and a scoped key by its preimage.
 */
module CanonicalPayload {
  import opened Options
  import opened StringOrder

  datatype Payload = Payload(
    message: string,
    gender: Option<string>,
    tags: Option<seq<string>>,
    stellarTxHash: Option<string>)

  datatype Canonical = Canonical(
    message: string,
    gender: Option<string>,
    tags: Option<seq<string>>,
    stellarTxHash: Option<string>)

  // ---- The payload hash ----------------------------------------------------

  function Canonicalize(p: Payload): Canonical {
    Canonical(
      p.message,
      p.gender,
      (match p.tags case None => None case Some(tags) => Some(Sort(tags))),
      p.stellarTxHash)
  }

  ghost predicate SameTags(a: Option<seq<string>>, b: Option<seq<string>>) {
    match (a, b)
    case (Some(s), Some(t)) => multiset(s) == multiset(t)
    case _ => a == b
  }

  /** Two requests share a hash exactly when they agree on every field, with tags as a multiset. */
  lemma SameHashIff(p: Payload, q: Payload)
    ensures Canonicalize(p) == Canonicalize(q)
       <==> p.message == q.message && p.gender == q.gender
            && p.stellarTxHash == q.stellarTxHash && SameTags(p.tags, q.tags)
  {
    if p.tags.Some? && q.tags.Some? {
      if multiset(p.tags.value) == multiset(q.tags.value) {
        SortedIsUnique(Sort(p.tags.value), Sort(q.tags.value));
      }
    }
  }

  // ---- The scoped key ------------------------------------------------------

  const NUL: char := '\0'

  function ScopedKey(operation: string, session: string, clientKey: string): string {
    operation + [NUL] + session + [NUL] + clientKey
  }

  lemma SplitAtSeparator(a: string, b: string, x: string, y: string)
    requires NUL !in a && NUL !in b
    requires a + [NUL] + x == b + [NUL] + y
    ensures a == b && x == y
  {
    var s, t := a + [NUL] + x, b + [NUL] + y;
    assert s[|a|] == NUL && t[|b|] == NUL;
    assert (forall i | 0 <= i < |a| :: s[i] == a[i]) && (forall i | 0 <= i < |b| :: t[i] == b[i]);
    assert |a| == |b|;
    assert a == s[..|a|] && b == t[..|b|];
    assert x == s[|a| + 1..] && y == t[|b| + 1..];
  }

  /**
    Keys of different sessions or operations never collide, whatever the client
    key is, as long as the operation and the session are free of NUL.
   */
  lemma ScopesNeverCollide(op: string, session: string, key: string, op': string, session': string, key': string)
    requires NUL !in op && NUL !in session && NUL !in op' && NUL !in session'
    ensures ScopedKey(op, session, key) == ScopedKey(op', session', key')
       <==> op == op' && session == session' && key == key'
  {
    var rest, rest' := session + [NUL] + key, session' + [NUL] + key';
    assert ScopedKey(op, session, key) == op + [NUL] + rest;
    assert ScopedKey(op', session', key') == op' + [NUL] + rest';
    if ScopedKey(op, session, key) == ScopedKey(op', session', key') {
      SplitAtSeparator(op, op', rest, rest');
      SplitAtSeparator(session, session', key, key');
    }
  }

  /** With a NUL in the session, as a CSRF token can put there, the separator is ambiguous. */
  lemma NulInSessionCollides()
    ensures ScopedKey("op", "csrf:a\0b", "c") == ScopedKey("op", "csrf:a", "b\0c")
  {
    assert ScopedKey("op", "csrf:a\0b", "c") == "op\0csrf:a\0b\0c" == ScopedKey("op", "csrf:a", "b\0c");
  }
}
