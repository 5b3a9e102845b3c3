/**
  What redaction guarantees about whole trees: which trees it leaves alone, what
  it keeps at every path, and what it does not let through.
 */
module RedactionTheorems {
  import opened Options
  import opened RedactionStrings
  import opened Redaction

  // ---- Fixed points --------------------------------------------------------

  /** Whether a string may be stored under a key. */
  type Allowed = (string, string) -> bool

  ghost predicate Produces(rewrite: Rewrite, ok: Allowed) {
    forall key, s :: ok(key, rewrite(key, s))
  }

  ghost predicate FixesExactly(rewrite: Rewrite, ok: Allowed) {
    forall key, s :: rewrite(key, s) == s <==> ok(key, s)
  }

  /** The trees that may be stored under a key, inside `nesting` arrays. */
  ghost predicate StorableTree(ok: Allowed, key: string, value: Value, nesting: nat)
    decreases value
  {
    match value
    case Str(s) => ok(key, s)
    case Obj(entries) => forall e | e in entries :: e.key != PROTO && StorableTree(ok, e.key, e.value, 0)
    case Arr(items) => nesting < 2 && forall v | v in items :: StorableTree(ok, key, v, nesting + 1)
    case _ => true
  }

  lemma {:induction false} ResultIsStorable(rewrite: Rewrite, ok: Allowed, key: string, value: Value, nesting: nat)
    requires Produces(rewrite, ok)
    ensures StorableTree(ok, key, RedactNested(rewrite, key, value, nesting), nesting)
    decreases value, 1
  {
    match value
    case Str(s) => assert ok(key, rewrite(key, s));
    case Obj(entries) => EntriesAreStorable(rewrite, ok, entries);
    case Arr(items) =>
      if nesting < 2 { ItemsAreStorable(rewrite, ok, key, items, nesting + 1); } else { IndexedAreStorable(rewrite, ok, items, 0); }
    case _ =>
  }

  lemma {:induction false} ItemsAreStorable(rewrite: Rewrite, ok: Allowed, key: string, items: seq<Value>, nesting: nat)
    requires Produces(rewrite, ok)
    ensures forall v | v in RedactItems(rewrite, key, items, nesting) :: StorableTree(ok, key, v, nesting)
    decreases items, 0
  {
    if items != [] {
      ResultIsStorable(rewrite, ok, key, items[0], nesting);
      ItemsAreStorable(rewrite, ok, key, items[1..], nesting);
    }
  }

  lemma {:induction false} EntriesAreStorable(rewrite: Rewrite, ok: Allowed, entries: seq<Entry>)
    requires Produces(rewrite, ok)
    ensures forall e | e in RedactEntries(rewrite, entries) :: e.key != PROTO && StorableTree(ok, e.key, e.value, 0)
    decreases entries, 0
  {
    if entries != [] {
      ResultIsStorable(rewrite, ok, entries[0].key, entries[0].value, 0);
      EntriesAreStorable(rewrite, ok, entries[1..]);
    }
  }

  lemma {:induction false} IndexedAreStorable(rewrite: Rewrite, ok: Allowed, items: seq<Value>, from: nat)
    requires Produces(rewrite, ok)
    ensures forall e | e in RedactIndexed(rewrite, items, from) :: e.key != PROTO && StorableTree(ok, e.key, e.value, 0)
    decreases items, 0
  {
    if items != [] {
      ResultIsStorable(rewrite, ok, IndexKey(from), items[0], 0);
      IndexedAreStorable(rewrite, ok, items[1..], from + 1);
    }
  }

  /** Redaction leaves a tree alone exactly when it may be stored as it is. */
  lemma {:induction false} FixedIffStorable(rewrite: Rewrite, ok: Allowed, key: string, value: Value, nesting: nat)
    requires FixesExactly(rewrite, ok)
    ensures RedactNested(rewrite, key, value, nesting) == value <==> StorableTree(ok, key, value, nesting)
    decreases value, 1
  {
    match value
    case Str(s) => assert rewrite(key, s) == s <==> ok(key, s);
    case Obj(entries) => EntriesFixedIff(rewrite, ok, entries);
    case Arr(items) => if nesting < 2 { ItemsFixedIff(rewrite, ok, key, items, nesting + 1); }
    case _ =>
  }

  lemma {:induction false} ItemsFixedIff(rewrite: Rewrite, ok: Allowed, key: string, items: seq<Value>, nesting: nat)
    requires FixesExactly(rewrite, ok)
    ensures RedactItems(rewrite, key, items, nesting) == items <==> forall v | v in items :: StorableTree(ok, key, v, nesting)
    decreases items, 0
  {
    if items != [] {
      FixedIffStorable(rewrite, ok, key, items[0], nesting);
      ItemsFixedIff(rewrite, ok, key, items[1..], nesting);
      assert items == [items[0]] + items[1..];
    }
  }

  lemma {:induction false} NeverLonger(rewrite: Rewrite, entries: seq<Entry>)
    ensures |RedactEntries(rewrite, entries)| <= |entries|
    decreases |entries|
  {
    if entries != [] { NeverLonger(rewrite, entries[1..]); }
  }

  lemma {:induction false} EntriesFixedIff(rewrite: Rewrite, ok: Allowed, entries: seq<Entry>)
    requires FixesExactly(rewrite, ok)
    ensures RedactEntries(rewrite, entries) == entries
       <==> forall e | e in entries :: e.key != PROTO && StorableTree(ok, e.key, e.value, 0)
    decreases entries, 0
  {
    if entries != [] {
      FixedIffStorable(rewrite, ok, entries[0].key, entries[0].value, 0);
      EntriesFixedIff(rewrite, ok, entries[1..]);
      NeverLonger(rewrite, entries[1..]);
      assert entries == [entries[0]] + entries[1..];
    }
  }

  function MayBeStored(): Allowed {
    (key: string, s: string) => Storable(key, s)
  }

  lemma ScalarsKeepTheRules(sha256: Digest)
    ensures Produces(Scalars(sha256), MayBeStored()) && FixesExactly(Scalars(sha256), MayBeStored())
  {
    forall key, s
      ensures Storable(key, RedactString(sha256, key, s))
      ensures RedactString(sha256, key, s) == s <==> Storable(key, s)
    {
      RedactedIsStorable(sha256, key, s);
      UnchangedIffStorable(sha256, key, s);
    }
  }

  /**
    What is stored for an object or an array may be stored: no sensitive key has
    a string of its own, and no JWT, email, user id or long hex string is left.
   */
  lemma StoredTreesAreStorable(sha256: Digest, metadata: Value)
    requires metadata.Obj? || metadata.Arr?
    ensures StorableTree(MayBeStored(), "", Redacted(sha256, metadata), 2)
  {
    ScalarsKeepTheRules(sha256);
    ResultIsStorable(Scalars(sha256), MayBeStored(), "", metadata, 2);
  }

  /** Redaction leaves an object alone exactly when it may be stored as it is. */
  lemma UnchangedIffMayBeStored(sha256: Digest, metadata: Value)
    requires metadata.Obj? || metadata.Arr?
    ensures Redacted(sha256, metadata) == metadata <==> StorableTree(MayBeStored(), "", metadata, 2)
  {
    ScalarsKeepTheRules(sha256);
    FixedIffStorable(Scalars(sha256), MayBeStored(), "", metadata, 2);
  }

  lemma RewritingTwice(rewrite: Rewrite, ok: Allowed, metadata: Value)
    requires Produces(rewrite, ok) && FixesExactly(rewrite, ok)
    ensures RewriteTree(rewrite, RewriteTree(rewrite, metadata)) == RewriteTree(rewrite, metadata)
  {
    if metadata.Obj? || metadata.Arr? {
      ResultIsStorable(rewrite, ok, "", metadata, 2);
      FixedIffStorable(rewrite, ok, "", RewriteTree(rewrite, metadata), 2);
    }
  }

  /** Redacting what was redacted changes nothing. */
  lemma Idempotent(sha256: Digest, metadata: Value)
    ensures Redacted(sha256, Redacted(sha256, metadata)) == Redacted(sha256, metadata)
  {
    ScalarsKeepTheRules(sha256);
    RewritingTwice(Scalars(sha256), MayBeStored(), metadata);
  }

  // ---- Paths ---------------------------------------------------------------

  function Find(entries: seq<Entry>, key: string): Option<Value> {
    if entries == [] then None
    else if entries[0].key == key then Some(entries[0].value)
    else Find(entries[1..], key)
  }

  function At(value: Value, path: seq<string>): Option<Value>
    decreases |path|
  {
    if path == [] then Some(value)
    else
      var child := Find(OwnEntries(value), path[0]);
      if child.None? then None else At(child.value, path[1..])
  }

  datatype Context = Context(key: string, nesting: nat)

  /** The key and the number of arrays that a value's child is met under. */
  function Inside(c: Context, value: Value, step: string): Context {
    if value.Arr? && c.nesting < 2 then Context(c.key, c.nesting + 1) else Context(step, 0)
  }

  function Along(c: Context, value: Value, path: seq<string>): Context
    decreases |path|
  {
    if path == [] then c
    else
      var child := Find(OwnEntries(value), path[0]);
      if child.None? then c else Along(Inside(c, value, path[0]), child.value, path[1..])
  }

  function RedactIn(rewrite: Rewrite, c: Context, value: Value): Value {
    RedactNested(rewrite, c.key, value, c.nesting)
  }

  function RedactChild(rewrite: Rewrite, c: Context, child: Option<Value>): Option<Value> {
    if child.None? then None else Some(RedactIn(rewrite, c, child.value))
  }

  lemma FindFirst(head: Entry, rest: seq<Entry>, key: string)
    ensures Find([head] + rest, key) == if head.key == key then Some(head.value) else Find(rest, key)
  {
    assert ([head] + rest)[1..] == rest;
  }

  lemma {:induction false} FindInEntries(rewrite: Rewrite, entries: seq<Entry>, key: string)
    ensures Find(RedactEntries(rewrite, entries), key)
         == if key == PROTO then None else RedactChild(rewrite, Context(key, 0), Find(entries, key))
    decreases |entries|
  {
    if entries != [] {
      var e := entries[0];
      FindInEntries(rewrite, entries[1..], key);
      FirstEntry(rewrite, entries);
      var rest := RedactEntries(rewrite, entries[1..]);
      if e.key == PROTO {
        assert RedactEntry(rewrite, e) + rest == rest;
      } else {
        FindFirst(Entry(e.key, RedactNested(rewrite, e.key, e.value, 0)), rest, key);
      }
    }
  }

  lemma {:induction false} FindInItems(rewrite: Rewrite, c: Context, items: seq<Value>, from: nat, key: string)
    ensures Find(Indexed(RedactItems(rewrite, c.key, items, c.nesting), from), key)
         == RedactChild(rewrite, c, Find(Indexed(items, from), key))
    decreases |items|
  {
    if items != [] {
      FindInItems(rewrite, c, items[1..], from + 1, key);
      var redacted := RedactItems(rewrite, c.key, items, c.nesting);
      assert redacted[1..] == RedactItems(rewrite, c.key, items[1..], c.nesting);
      assert Indexed(items, from)[1..] == Indexed(items[1..], from + 1);
      assert Indexed(redacted, from)[1..] == Indexed(redacted[1..], from + 1);
    }
  }

  lemma {:induction false} NoProtoIndex(items: seq<Value>, from: nat)
    ensures Find(Indexed(items, from), PROTO) == None
    decreases |items|
  {
    if items != [] {
      NoProtoIndex(items[1..], from + 1);
      assert Indexed(items, from)[1..] == Indexed(items[1..], from + 1);
    }
  }

  lemma OneStepInArray(rewrite: Rewrite, c: Context, items: seq<Value>, step: string)
    ensures Find(OwnEntries(RedactIn(rewrite, c, Arr(items))), step)
         == RedactChild(rewrite, Inside(c, Arr(items), step), Find(Indexed(items, 0), step))
  {
    if c.nesting < 2 {
      FindInItems(rewrite, Context(c.key, c.nesting + 1), items, 0, step);
    } else {
      RedactIndexedIsEntries(rewrite, items, 0);
      FindInEntries(rewrite, Indexed(items, 0), step);
      NoProtoIndex(items, 0);
    }
  }

  lemma OneStep(rewrite: Rewrite, c: Context, value: Value, step: string)
    ensures Find(OwnEntries(RedactIn(rewrite, c, value)), step)
         == if step == PROTO then None else RedactChild(rewrite, Inside(c, value, step), Find(OwnEntries(value), step))
  {
    if value.Obj? {
      FindInEntries(rewrite, value.entries, step);
    } else if value.Arr? {
      OneStepInArray(rewrite, c, value.items, step);
      NoProtoIndex(value.items, 0);
    }
  }

  /**
    Redaction commutes with looking up a path: what is found is the redaction of
    what was there, under the last object key of the path, or under an index
    where three arrays or more are nested.  Nothing is found past `__proto__`.
   */
  lemma {:induction false} LookupCommutes(rewrite: Rewrite, c: Context, value: Value, path: seq<string>)
    ensures At(RedactIn(rewrite, c, value), path)
         == if PROTO in path then None
            else RedactChild(rewrite, Along(c, value, path), At(value, path))
    decreases |path|
  {
    if path != [] {
      OneStep(rewrite, c, value, path[0]);
      var child := Find(OwnEntries(value), path[0]);
      if path[0] != PROTO && child.Some? {
        LookupCommutes(rewrite, Inside(c, value, path[0]), child.value, path[1..]);
      }
      assert path == [path[0]] + path[1..];
    }
  }

  const TOP := Context("", 2)

  lemma FoundInRewritten(rewrite: Rewrite, metadata: Value, path: seq<string>)
    requires metadata.Obj? || metadata.Arr?
    ensures var found := At(RewriteTree(rewrite, metadata), path);
            var original := At(metadata, path);
            && (found.Some? <==> PROTO !in path && original.Some?)
            && (found.Some? && original.value.Str?
                ==> found.value == Str(rewrite(Along(TOP, metadata, path).key, original.value.s)))
            && (found.Some? && (found.value.Str? || original.value.Str?) ==> found.value.Str? && original.value.Str?)
            && (found.Some? && !HasChildren(found.value) && !original.value.Str? ==> found == original)
            && (found.Some? && !HasChildren(original.value) && !original.value.Str? ==> found == original)
  {
    LookupCommutes(rewrite, TOP, metadata, path);
  }

  predicate HasChildren(value: Value) {
    value.Obj? || value.Arr?
  }

  /**
    Every key, number, boolean and null survives, exactly when no key on its path
    is `__proto__`.
   */
  lemma NonStringsSurvive(sha256: Digest, metadata: Value, path: seq<string>, leaf: Value)
    requires metadata.Obj? || metadata.Arr?
    requires leaf.Undefined? || leaf.Null? || leaf.Bool? || leaf.Num?
    ensures At(Redacted(sha256, metadata), path) == Some(leaf) <==> PROTO !in path && At(metadata, path) == Some(leaf)
    ensures At(Redacted(sha256, metadata), path).Some? <==> PROTO !in path && At(metadata, path).Some?
  {
    FoundInRewritten(Scalars(sha256), metadata, path);
  }

  /** Every string that is stored is the redaction of the string at the same path. */
  lemma StringsAreRedacted(sha256: Digest, metadata: Value, path: seq<string>, s: string)
    requires metadata.Obj? || metadata.Arr?
    requires PROTO !in path && At(metadata, path) == Some(Str(s))
    ensures At(Redacted(sha256, metadata), path)
         == Some(Str(RedactString(sha256, Along(TOP, metadata, path).key, s)))
  {
    FoundInRewritten(Scalars(sha256), metadata, path);
  }

  // ---- Non-interference ----------------------------------------------------

  ghost predicate Hides(rewrite: Rewrite, secret: string -> bool) {
    forall key, s, t :: secret(key) ==> rewrite(key, s) == rewrite(key, t)
  }

  /** Equal but for strings that are met under a sensitive key. */
  ghost predicate Indistinguishable(secret: string -> bool, key: string, a: Value, b: Value, nesting: nat)
    decreases a
  {
    match a
    case Str(s) => b.Str? && (s == b.s || secret(key))
    case Obj(entries) =>
      && b.Obj? && |entries| == |b.entries|
      && forall i | 0 <= i < |entries| ::
           && entries[i].key == b.entries[i].key
           && Indistinguishable(secret, entries[i].key, entries[i].value, b.entries[i].value, 0)
    case Arr(items) =>
      && b.Arr? && |items| == |b.items|
      && forall i | 0 <= i < |items| ::
           if nesting < 2 then Indistinguishable(secret, key, items[i], b.items[i], nesting + 1)
           else Indistinguishable(secret, IndexKey(i), items[i], b.items[i], 0)
    case _ => a == b
  }

  lemma {:induction false} SecretsDoNotShow(rewrite: Rewrite, secret: string -> bool,
                                            key: string, a: Value, b: Value, nesting: nat)
    requires Hides(rewrite, secret)
    requires Indistinguishable(secret, key, a, b, nesting)
    ensures RedactNested(rewrite, key, a, nesting) == RedactNested(rewrite, key, b, nesting)
    decreases a, 1
  {
    match a
    case Str(t) => assert secret(key) ==> rewrite(key, t) == rewrite(key, b.s);
    case Obj(entries) => SecretEntries(rewrite, secret, entries, b.entries);
    case Arr(items) =>
      if nesting < 2 { SecretItems(rewrite, secret, key, items, b.items, nesting + 1); }
      else { SecretIndexed(rewrite, secret, items, b.items, 0); }
    case _ =>
  }

  lemma {:induction false} SecretItems(rewrite: Rewrite, secret: string -> bool,
                                       key: string, a: seq<Value>, b: seq<Value>, nesting: nat)
    requires Hides(rewrite, secret)
    requires |a| == |b| && forall i | 0 <= i < |a| :: Indistinguishable(secret, key, a[i], b[i], nesting)
    ensures RedactItems(rewrite, key, a, nesting) == RedactItems(rewrite, key, b, nesting)
    decreases a, 0
  {
    if a != [] {
      SecretsDoNotShow(rewrite, secret, key, a[0], b[0], nesting);
      SecretItems(rewrite, secret, key, a[1..], b[1..], nesting);
    }
  }

  lemma {:induction false} SecretEntries(rewrite: Rewrite, secret: string -> bool, a: seq<Entry>, b: seq<Entry>)
    requires Hides(rewrite, secret)
    requires |a| == |b|
    requires forall i | 0 <= i < |a| :: a[i].key == b[i].key && Indistinguishable(secret, a[i].key, a[i].value, b[i].value, 0)
    ensures RedactEntries(rewrite, a) == RedactEntries(rewrite, b)
    decreases a, 0
  {
    if a != [] {
      SecretsDoNotShow(rewrite, secret, a[0].key, a[0].value, b[0].value, 0);
      SecretEntries(rewrite, secret, a[1..], b[1..]);
    }
  }

  lemma {:induction false} SecretIndexed(rewrite: Rewrite, secret: string -> bool, a: seq<Value>, b: seq<Value>, from: nat)
    requires Hides(rewrite, secret)
    requires |a| == |b| && forall i | 0 <= i < |a| :: Indistinguishable(secret, IndexKey(from + i), a[i], b[i], 0)
    ensures RedactIndexed(rewrite, a, from) == RedactIndexed(rewrite, b, from)
    decreases a, 0
  {
    if a != [] {
      SecretsDoNotShow(rewrite, secret, IndexKey(from + 0), a[0], b[0], 0);
      forall i | 0 <= i < |a| - 1 ensures Indistinguishable(secret, IndexKey(from + 1 + i), a[1..][i], b[1..][i], 0) {
        assert from + 1 + i == from + (i + 1);
        assert Indistinguishable(secret, IndexKey(from + (i + 1)), a[i + 1], b[i + 1], 0);
      }
      SecretIndexed(rewrite, secret, a[1..], b[1..], from + 1);
    }
  }

  function Sensitive(): string -> bool {
    (key: string) => IsSensitiveField(key)
  }

  lemma ScalarsHideSecrets(sha256: Digest)
    ensures Hides(Scalars(sha256), Sensitive())
  {
    forall key, s, t | IsSensitiveField(key) ensures RedactString(sha256, key, s) == RedactString(sha256, key, t) {
      assert RedactString(sha256, key, s) == REDACTED == RedactString(sha256, key, t);
    }
  }

  /** Trees that differ only in strings under sensitive keys are stored as the same tree. */
  lemma NonInterference(sha256: Digest, a: Value, b: Value)
    requires a.Obj? || a.Arr?
    requires Indistinguishable(Sensitive(), "", a, b, 2)
    ensures Redacted(sha256, a) == Redacted(sha256, b)
  {
    ScalarsHideSecrets(sha256);
    SecretsDoNotShow(Scalars(sha256), Sensitive(), "", a, b, 2);
  }

  lemma SingleItem(value: Value)
    ensures Find(OwnEntries(Arr([value])), IndexKey(0)) == Some(value)
  {
    assert Indexed([value], 0) == [Entry(IndexKey(0), value)] + Indexed([], 1);
    FindFirst(Entry(IndexKey(0), value), [], IndexKey(0));
  }

  function Wrap(value: Value): Value {
    Arr([value])
  }

  lemma IntoArray(c: Context, value: Value, zero: string, rest: seq<string>)
    requires zero == IndexKey(0)
    ensures At(Wrap(value), [zero] + rest) == At(value, rest)
    ensures Along(c, Wrap(value), [zero] + rest) == Along(Inside(c, Wrap(value), zero), value, rest)
  {
    SingleItem(value);
    assert ([zero] + rest)[1..] == rest;
  }

  lemma IntoObject(c: Context, key: string, value: Value, rest: seq<string>)
    ensures At(Obj([Entry(key, value)]), [key] + rest) == At(value, rest)
    ensures Along(c, Obj([Entry(key, value)]), [key] + rest) == Along(Context(key, 0), value, rest)
  {
    var o := Obj([Entry(key, value)]);
    assert o.entries == [Entry(key, value)] + [];
    FindFirst(Entry(key, value), [], key);
    assert ([key] + rest)[1..] == rest;
  }

  /** A string inside three arrays under a key. */
  function Buried(key: string, s: string): Value {
    Obj([Entry(key, Wrap(Wrap(Wrap(Str(s)))))])
  }

  function BuriedPath(key: string, zero: string): seq<string> {
    [key] + ([zero] + ([zero] + [zero]))
  }

  lemma BuriedContext(key: string, s: string, zero: string)
    requires zero == IndexKey(0)
    ensures At(Buried(key, s), BuriedPath(key, zero)) == Some(Str(s))
    ensures Along(TOP, Buried(key, s), BuriedPath(key, zero)) == Context(zero, 0)
    ensures key != PROTO ==> PROTO !in BuriedPath(key, zero)
  {
    ZeroIsDigits(zero);
    var one := Wrap(Str(s));
    var two := Wrap(one);
    IntoObject(TOP, key, Wrap(two), [zero] + ([zero] + [zero]));
    IntoArray(Context(key, 0), two, zero, [zero] + [zero]);
    IntoArray(Context(key, 1), one, zero, [zero]);
    assert [zero] + [] == [zero];
    IntoArray(Context(key, 2), Str(s), zero, []);
  }

  lemma KeptUnderIndex(sha256: Digest, s: string, zero: string)
    requires zero == IndexKey(0) && !IsJwt(s) && !IsEmail(s) && !IsLongHex(s)
    ensures RedactString(sha256, zero, s) == s
  {
    ZeroIsDigits(zero);
    IndexNamesAreNotSensitive(zero);
    UnclassifiedIsKept(sha256, zero, s);
  }

  lemma KeptAt(sha256: Digest, metadata: Value, path: seq<string>, s: string, key: string)
    requires metadata.Obj? && PROTO !in path && At(metadata, path) == Some(Str(s))
    requires Along(TOP, metadata, path).key == key && RedactString(sha256, key, s) == s
    ensures At(Redacted(sha256, metadata), path) == Some(Str(s))
  {
    StringsAreRedacted(sha256, metadata, path, s);
  }

  /**
    The guarantee stops at the third array.  There the key is an index, which is
    never sensitive, so under every key, `password` included, a string that no
    pattern recognises is stored as it is.
   */
  lemma DeepStringsShow(sha256: Digest, key: string, s: string, zero: string, metadata: Value, path: seq<string>)
    requires key != PROTO && zero == IndexKey(0) && metadata == Buried(key, s) && path == BuriedPath(key, zero)
    requires !IsJwt(s) && !IsEmail(s) && !IsLongHex(s)
    ensures At(Redacted(sha256, metadata), path) == Some(Str(s))
  {
    BuriedContext(key, s, zero);
    KeptUnderIndex(sha256, s, zero);
    KeptAt(sha256, metadata, path, s, zero);
  }

  lemma ZeroIsDigits(zero: string)
    requires zero == IndexKey(0)
    ensures |zero| == 1 && AllDigits(zero) && !IsUserIdKey(zero)
  {
    assert zero == [Digit(0)];
  }

  lemma ExactNamesStartWithLetters(i: nat)
    requires i < |SENSITIVE_EXACT_FIELDS|
    ensures SENSITIVE_EXACT_FIELDS[i] != "" && !IsDigit(SENSITIVE_EXACT_FIELDS[i][0])
  {
  }

  lemma WordsStartWithLetters(i: nat)
    requires i < |SENSITIVE_WORDS|
    ensures SENSITIVE_WORDS[i] != "" && !IsDigit(SENSITIVE_WORDS[i][0])
  {
  }

  lemma {:induction false} IncludesFirst(s: string, word: string)
    requires word != "" && Includes(s, word)
    ensures word[0] in s
    decreases |s|
  {
    if !(word <= s) { IncludesFirst(s[1..], word); }
  }

  /** An array index is never a sensitive name. */
  lemma IndexNamesAreNotSensitive(name: string)
    requires name != "" && AllDigits(name)
    ensures !IsSensitiveField(name)
  {
    assert forall i | 0 <= i < |name| :: name[i] in name;
    assert LowerAll(name) == name;
    forall i | 0 <= i < |SENSITIVE_EXACT_FIELDS| ensures SENSITIVE_EXACT_FIELDS[i] != name {
      ExactNamesStartWithLetters(i);
    }
    OneOfIsIn(name, SENSITIVE_EXACT_FIELDS);
    forall i | 0 <= i < |SENSITIVE_WORDS| ensures !Includes(name, SENSITIVE_WORDS[i]) {
      WordsStartWithLetters(i);
      if Includes(name, SENSITIVE_WORDS[i]) { IncludesFirst(name, SENSITIVE_WORDS[i]); }
    }
    assert |name| >= 5 ==> name[|name| - 5..][0] in name;
    assert |name| >= 6 ==> name[|name| - 6..][0] in name;
  }

  lemma UnclassifiedIsKept(sha256: Digest, key: string, s: string)
    requires !IsSensitiveField(key) && !IsUserIdKey(key) && !IsJwt(s) && !IsEmail(s) && !IsLongHex(s)
    ensures RedactString(sha256, key, s) == s
  {
  }
}
