/**
  Redaction of audit metadata: a rewrite of a JSON tree.

  An object is the list of its own entries in the order of `Object.entries`.
 */
module Redaction {
  import opened Options
  import opened RedactionStrings

  datatype Value =
    | Undefined
    | Null
    | Bool(b: bool)
    | Num(n: real)
    | Str(s: string)
    | Arr(items: seq<Value>)
    | Obj(entries: seq<Entry>)

  datatype Entry = Entry(key: string, value: Value)

  // ---- Property names ------------------------------------------------------

  /** Assigning to this property sets the prototype and adds no entry. */
  const PROTO := "__proto__"

  function Digit(d: nat): char
    requires d < 10
  {
    (('0' as int) + d) as char
  }

  /** The name of an array index. */
  function IndexKey(i: nat): (key: string)
    ensures key != "" && IsDigit(key[0])
  {
    if i < 10 then [Digit(i)] else IndexKey(i / 10) + [Digit(i % 10)]
  }

  /** The entries of an array, seen as an object. */
  function Indexed(items: seq<Value>, from: nat): (entries: seq<Entry>)
    ensures |entries| == |items|
  {
    if items == [] then [] else [Entry(IndexKey(from), items[0])] + Indexed(items[1..], from + 1)
  }

  /** What replaces a string that is met under a key. */
  type Rewrite = (string, string) -> string

  // ---- The rewrite ---------------------------------------------------------

  /** A value met under a key, inside `nesting` arrays. */
  function RedactNested(rewrite: Rewrite, key: string, value: Value, nesting: nat): Value
    decreases value, 1
  {
    match value
    case Str(s) => Str(rewrite(key, s))
    case Obj(entries) => Obj(RedactEntries(rewrite, entries))
    case Arr(items) =>
      if nesting < 2 then Arr(RedactItems(rewrite, key, items, nesting + 1))
      else Obj(RedactIndexed(rewrite, items, 0))
    case _ => value
  }

  function RedactItems(rewrite: Rewrite, key: string, items: seq<Value>, nesting: nat): (r: seq<Value>)
    decreases items, 0
  {
    if items == [] then []
    else [RedactNested(rewrite, key, items[0], nesting)] + RedactItems(rewrite, key, items[1..], nesting)
  }

  function RedactEntries(rewrite: Rewrite, entries: seq<Entry>): (r: seq<Entry>)
    decreases entries, 0
  {
    if entries == [] then []
    else
      RedactEntry(rewrite, entries[0]) + RedactEntries(rewrite, entries[1..])
  }

  function RedactEntry(rewrite: Rewrite, e: Entry): seq<Entry>
    decreases e, 0
  {
    if e.key == PROTO then [] else [Entry(e.key, RedactNested(rewrite, e.key, e.value, 0))]
  }

  function RedactIndexed(rewrite: Rewrite, items: seq<Value>, from: nat): (r: seq<Entry>)
    decreases items, 0
  {
    if items == [] then []
    else
      [Entry(IndexKey(from), RedactNested(rewrite, IndexKey(from), items[0], 0))]
      + RedactIndexed(rewrite, items[1..], from + 1)
  }

  /** Any object or array at the top is rewritten as an object. */
  function RewriteTree(rewrite: Rewrite, metadata: Value): Value {
    match metadata
    case Undefined => Null
    case Obj(_) => RedactNested(rewrite, "", metadata, 2)
    case Arr(_) => RedactNested(rewrite, "", metadata, 2)
    case _ => metadata
  }

  function Scalars(sha256: Digest): Rewrite {
    (key: string, s: string) => RedactString(sha256, key, s)
  }

  function Redacted(sha256: Digest, metadata: Value): Value {
    RewriteTree(Scalars(sha256), metadata)
  }

  // ---- `redactMetadata` ----------------------------------------------------

  ghost predicate DistinctKeys(entries: seq<Entry>) {
    forall i, j | 0 <= i < j < |entries| :: entries[i].key != entries[j].key
  }

  /** `result[key] = value` on an object made by a literal. */
  function Assign(result: seq<Entry>, key: string, value: Value): seq<Entry>
    decreases |result|
  {
    if key == PROTO then result
    else if result == [] then [Entry(key, value)]
    else if result[0].key == key then [Entry(key, value)] + result[1..]
    else [result[0]] + Assign(result[1..], key, value)
  }

  lemma {:induction false} AssignNew(result: seq<Entry>, key: string, value: Value)
    requires forall e | e in result :: e.key != key
    ensures Assign(result, key, value) == if key == PROTO then result else result + [Entry(key, value)]
    decreases |result|
  {
    if result != [] { AssignNew(result[1..], key, value); }
  }

  /** One step of the rewrite: the first entry is kept under its key, or dropped. */
  lemma FirstEntry(rewrite: Rewrite, entries: seq<Entry>)
    requires entries != []
    ensures RedactEntries(rewrite, entries) == RedactEntry(rewrite, entries[0]) + RedactEntries(rewrite, entries[1..])
  {
  }

  lemma {:induction false} RedactIndexedIsEntries(rewrite: Rewrite, items: seq<Value>, from: nat)
    ensures RedactIndexed(rewrite, items, from) == RedactEntries(rewrite, Indexed(items, from))
    decreases |items|
  {
    if items != [] {
      assert Indexed(items, from)[1..] == Indexed(items[1..], from + 1);
      RedactIndexedIsEntries(rewrite, items[1..], from + 1);
    }
  }

  function OwnEntries(value: Value): seq<Entry> {
    match value
    case Obj(entries) => entries
    case Arr(items) => Indexed(items, 0)
    case _ => []
  }

  lemma TreeIsEntries(rewrite: Rewrite, metadata: Value)
    requires metadata.Obj? || metadata.Arr?
    ensures RewriteTree(rewrite, metadata) == Obj(RedactEntries(rewrite, OwnEntries(metadata)))
  {
    if metadata.Arr? { RedactIndexedIsEntries(rewrite, metadata.items, 0); }
  }

  lemma AssignEntry(rewrite: Rewrite, result: seq<Entry>, e: Entry, value: Value)
    requires value == RedactNested(rewrite, e.key, e.value, 0) && forall x | x in result :: x.key != e.key
    ensures Assign(result, e.key, value) == result + RedactEntry(rewrite, e)
  {
    AssignNew(result, e.key, value);
  }

  lemma EntryMovesOver(rewrite: Rewrite, result: seq<Entry>, entries: seq<Entry>, i: nat)
    requires i < |entries|
    ensures (result + RedactEntry(rewrite, entries[i])) + RedactEntries(rewrite, entries[i + 1..])
         == result + RedactEntries(rewrite, entries[i..])
  {
    FirstEntry(rewrite, entries[i..]);
    assert entries[i..][1..] == entries[i + 1..];
  }

  /** None of these names is among the keys of the entries from `i` on. */
  ghost predicate Fresh(result: seq<Entry>, entries: seq<Entry>, i: nat) {
    forall e, j | e in result && i <= j < |entries| :: e.key != entries[j].key
  }

  lemma StillFresh(rewrite: Rewrite, result: seq<Entry>, entries: seq<Entry>, i: nat)
    requires i < |entries| && DistinctKeys(entries) && Fresh(result, entries, i)
    ensures Fresh(result + RedactEntry(rewrite, entries[i]), entries, i + 1)
  {
  }

  /** The loop of `redactMetadata`, for any rewrite of strings. */
  method RewriteMetadata(rewrite: Rewrite, metadata: Value) returns (r: Value)
    requires DistinctKeys(OwnEntries(metadata))
    ensures r == RewriteTree(rewrite, metadata)
  {
    if metadata.Undefined? || metadata.Null? { return Null; }
    if !metadata.Obj? && !metadata.Arr? { return metadata; }
    var entries := OwnEntries(metadata);
    var result: seq<Entry> := [];
    assert entries[0..] == entries;
    for i := 0 to |entries|
      invariant result + RedactEntries(rewrite, entries[i..]) == RedactEntries(rewrite, entries)
      invariant Fresh(result, entries, i)
    {
      var e := entries[i];
      var value := RedactNested(rewrite, e.key, e.value, 0);
      AssignEntry(rewrite, result, e, value);
      EntryMovesOver(rewrite, result, entries, i);
      StillFresh(rewrite, result, entries, i);
      result := Assign(result, e.key, value);
    }
    assert entries[|entries|..] == [];
    TreeIsEntries(rewrite, metadata);
    r := Obj(result);
  }

  method RedactMetadata(sha256: Digest, metadata: Value) returns (r: Value)
    requires DistinctKeys(OwnEntries(metadata))
    ensures r == Redacted(sha256, metadata)
  {
    r := RewriteMetadata(Scalars(sha256), metadata);
  }
}
