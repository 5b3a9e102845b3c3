/**
  The second half of the contract scanner: in masked code, the `pub fn` names
  that stand directly in the body of a `contractimpl` block.

  White space and word characters are those of ASCII.
 */
module ContractScanner {
  import opened Options
  import opened RustLexer
  import StringOrder

  // ---- Patterns ------------------------------------------------------------

  predicate IsSpace(c: char) { '\t' <= c <= '\r' || c == ' ' || '\U{001C}' <= c <= '\U{001F}' }

  predicate IsNameStart(c: char) { 'a' <= c <= 'z' || c == '_' }

  predicate IsNamePart(c: char) { IsNameStart(c) || '0' <= c <= '9' }

  predicate IsWord(c: char) { IsNamePart(c) || 'A' <= c <= 'Z' }

  function SkipSpaces(s: string, p: nat): (q: nat)
    requires p <= |s|
    ensures p <= q <= |s|
    decreases |s| - p
  {
    if p < |s| && IsSpace(s[p]) then SkipSpaces(s, p + 1) else p
  }

  function NameEnd(s: string, p: nat): (q: nat)
    requires p <= |s|
    ensures p <= q <= |s|
    decreases |s| - p
  {
    if p < |s| && IsNamePart(s[p]) then NameEnd(s, p + 1) else p
  }

  function OpenBrace(s: string, p: nat): (q: nat)
    requires p <= |s|
    ensures p <= q <= |s|
    decreases |s| - p
  {
    if p < |s| && s[p] != '{' then OpenBrace(s, p + 1) else p
  }

  /** The end of `text` at `p`. */
  function After(s: string, p: nat, text: string): (q: Option<nat>)
    ensures q.Some? ==> q.value == p + |text| <= |s|
  {
    if Has(s, p, text) then Some(p + |text|) else None
  }

  datatype Match = Match(name: string, end: nat)

  /** `\bpub\s+fn\s+([a-z_][a-z_0-9]*)` at `p`. */
  function PubFn(s: string, p: nat): (m: Option<Match>)
    requires p <= |s|
    ensures m.Some? ==> p < m.value.end <= |s|
  {
    if (p > 0 && IsWord(s[p - 1])) || !Has(s, p, "pub") then None
    else
      var a := SkipSpaces(s, p + 3);
      if a == p + 3 || !Has(s, a, "fn") then None
      else
        var b := SkipSpaces(s, a + 2);
        if b == a + 2 || b == |s| || !IsNameStart(s[b]) then None
        else Some(Match(s[b..NameEnd(s, b)], NameEnd(s, b)))
  }

  /** `#\[\s*contractimpl\s*\]\s*impl\b[^\{]*\{` at `p`: the end, just past the brace. */
  function Header(s: string, p: nat): (end: Option<nat>)
    requires p <= |s|
    ensures end.Some? ==> p < end.value <= |s|
  {
    var c := Attribute(s, p);
    if c.None? then None else ImplBrace(s, c.value)
  }

  /** The attribute, and the white space after it. */
  function Attribute(s: string, p: nat): (c: Option<nat>)
    requires p <= |s|
    ensures c.Some? ==> p < c.value <= |s|
  {
    if !Has(s, p, "#[") then None
    else
      var a := SkipSpaces(s, p + 2);
      if !Has(s, a, "contractimpl") then None
      else
        var b := SkipSpaces(s, a + 12);
        if !Has(s, b, "]") then None else Some(SkipSpaces(s, b + 1))
  }

  /** The tail of it, from `impl` on. */
  function ImplBrace(s: string, c: nat): (end: Option<nat>)
    requires c <= |s|
    ensures end.Some? ==> c < end.value <= |s|
  {
    if !Has(s, c, "impl") || (c + 4 < |s| && IsWord(s[c + 4])) then None
    else
      var open := OpenBrace(s, c + 4);
      if open == |s| then None else Some(open + 1)
  }

  // ---- What the patterns take in -------------------------------------------

  lemma LettersAt(s: string, p: nat, text: string)
    requires Has(s, p, text)
    ensures forall k | 0 <= k < |text| :: s[p + k] == text[k]
  {
    forall k | 0 <= k < |text| ensures s[p + k] == text[k] { assert s[p..p + |text|][k] == text[k]; }
  }

  lemma {:induction false} SpacesSkipped(s: string, p: nat)
    requires p <= |s|
    ensures forall k | p <= k < SkipSpaces(s, p) :: IsSpace(s[k])
    decreases |s| - p
  {
    if p < |s| && IsSpace(s[p]) { SpacesSkipped(s, p + 1); }
  }

  lemma {:induction false} NameParts(s: string, p: nat)
    requires p <= |s|
    ensures forall k | p <= k < NameEnd(s, p) :: IsNamePart(s[k])
    decreases |s| - p
  {
    if p < |s| && IsNamePart(s[p]) { NameParts(s, p + 1); }
  }

  lemma {:induction false} FirstBrace(s: string, p: nat, q: nat)
    requires p <= q <= |s| && forall k | p <= k < q :: s[k] != '{'
    ensures OpenBrace(s, p) == OpenBrace(s, q)
    decreases q - p
  {
    if p < q { FirstBrace(s, p + 1, q); }
  }

  lemma {:induction false} BraceOpens(s: string, p: nat)
    requires p <= |s|
    ensures OpenBrace(s, p) < |s| ==> s[OpenBrace(s, p)] == '{'
    ensures forall k | p <= k < OpenBrace(s, p) :: s[k] != '{'
    decreases |s| - p
  {
    if p < |s| && s[p] != '{' { BraceOpens(s, p + 1); }
  }

  /** The three words of a match, and the white space between them. */
  ghost predicate Shape(s: string, p: nat, a: nat, b: nat, end: nat) {
    && p + 3 < a && a + 2 < b < end <= |s|
    && (p > 0 ==> !IsWord(s[p - 1]))
    && s[p] == 'p' && s[p + 1] == 'u' && s[p + 2] == 'b'
    && (forall k | p + 3 <= k < a :: IsSpace(s[k]))
    && s[a] == 'f' && s[a + 1] == 'n'
    && (forall k | a + 2 <= k < b :: IsSpace(s[k]))
    && (forall k | b <= k < end :: IsNamePart(s[k]))
  }

  lemma PubAt(s: string, p: nat)
    requires Has(s, p, "pub")
    ensures p + 3 <= |s| && s[p] == 'p' && s[p + 1] == 'u' && s[p + 2] == 'b'
  {
    var w := s[p..p + 3];
    assert w[0] == s[p] && w[1] == s[p + 1] && w[2] == s[p + 2];
  }

  lemma FnAt(s: string, p: nat)
    requires Has(s, p, "fn")
    ensures p + 2 <= |s| && s[p] == 'f' && s[p + 1] == 'n'
  {
    var w := s[p..p + 2];
    assert w[0] == s[p] && w[1] == s[p + 1];
  }

  lemma MatchShape(s: string, p: nat) returns (a: nat, b: nat)
    requires p <= |s| && PubFn(s, p).Some?
    ensures Shape(s, p, a, b, PubFn(s, p).value.end) && PubFn(s, p).value.name == s[b..PubFn(s, p).value.end]
    ensures PubFn(s, p).value.end == NameEnd(s, b)
  {
    PubAt(s, p);
    a := SkipSpaces(s, p + 3);
    SpacesSkipped(s, p + 3);
    FnAt(s, a);
    b := SkipSpaces(s, a + 2);
    SpacesSkipped(s, a + 2);
    NameParts(s, b);
  }

  lemma MatchHasNoBrace(s: string, p: nat)
    requires p <= |s| && PubFn(s, p).Some?
    ensures forall k | p <= k < PubFn(s, p).value.end :: s[k] != '{' && s[k] != '}'
  {
    var a, b := MatchShape(s, p);
    ShapeHasNoBrace(s, p, a, b, PubFn(s, p).value.end);
  }

  lemma ShapeHasNoBrace(s: string, p: nat, a: nat, b: nat, end: nat)
    requires Shape(s, p, a, b, end)
    ensures forall k | p <= k < end :: s[k] != '{' && s[k] != '}'
  {
  }

  ghost predicate NoBrace(s: string, p: nat, q: nat) {
    p <= q <= |s| && forall k | p <= k < q :: s[k] != '{'
  }

  lemma NoBraceIn(s: string, p: nat, text: string)
    requires Has(s, p, text) && '{' !in text
    ensures NoBrace(s, p, p + |text|)
  {
    LettersAt(s, p, text);
    forall k | p <= k < p + |text| ensures s[k] != '{' {
      assert s[p + (k - p)] == text[k - p] && text[k - p] in text;
    }
  }

  lemma NoBraceInSpaces(s: string, p: nat)
    requires p <= |s|
    ensures NoBrace(s, p, SkipSpaces(s, p))
  {
    SpacesSkipped(s, p);
  }

  lemma Glue(s: string, p: nat, q: nat, r: nat)
    requires NoBrace(s, p, q) && NoBrace(s, q, r)
    ensures NoBrace(s, p, r)
  {
  }

  /** A word without braces, and the white space after it. */
  lemma WordAndSpaces(s: string, p: nat, text: string)
    requires Has(s, p, text) && '{' !in text
    ensures NoBrace(s, p, SkipSpaces(s, p + |text|))
  {
    NoBraceIn(s, p, text);
    NoBraceInSpaces(s, p + |text|);
    Glue(s, p, p + |text|, SkipSpaces(s, p + |text|));
  }

  lemma HeaderParts(s: string, p: nat) returns (a: nat, b: nat, c: nat)
    requires p <= |s| && Header(s, p).Some?
    ensures Has(s, p, "#[") && a == SkipSpaces(s, p + 2)
    ensures Has(s, a, "contractimpl") && b == SkipSpaces(s, a + 12)
    ensures Has(s, b, "]") && c == SkipSpaces(s, b + 1)
    ensures Has(s, c, "impl") && Header(s, p).value == OpenBrace(s, c + 4) + 1
  {
    a := SkipSpaces(s, p + 2);
    b := SkipSpaces(s, a + 12);
    c := SkipSpaces(s, b + 1);
  }

  lemma PartsHaveNoBrace(s: string, p: nat, a: nat, b: nat, c: nat)
    requires Has(s, p, "#[") && a == SkipSpaces(s, p + 2)
    requires Has(s, a, "contractimpl") && b == SkipSpaces(s, a + 12)
    requires Has(s, b, "]") && c == SkipSpaces(s, b + 1)
    ensures NoBrace(s, p, c)
  {
    WordAndSpaces(s, p, "#[");
    WordAndSpaces(s, a, "contractimpl");
    WordAndSpaces(s, b, "]");
    Glue(s, p, a, b);
    Glue(s, p, b, c);
  }

  lemma HashFirst(s: string, p: nat)
    requires Has(s, p, "#[")
    ensures p < |s| && s[p] == '#'
  {
    assert s[p..p + 2][0] == '#';
  }

  lemma SameOpenBrace(s: string, p: nat, c: nat)
    requires NoBrace(s, p, c) && Has(s, c, "impl")
    ensures c + 4 <= |s| && OpenBrace(s, p) == OpenBrace(s, c + 4)
  {
    NoBraceIn(s, c, "impl");
    Glue(s, p, c, c + 4);
    FirstBrace(s, p, c + 4);
  }

  /** A header ends at the first brace after its start, and starts with a hash sign. */
  lemma HeaderBrace(s: string, p: nat)
    requires p <= |s| && Header(s, p).Some?
    ensures p < |s| && s[p] == '#' && Header(s, p).value == OpenBrace(s, p) + 1
  {
    var a, b, c := HeaderParts(s, p);
    HashFirst(s, p);
    PartsHaveNoBrace(s, p, a, b, c);
    SameOpenBrace(s, p, c);
  }

  // ---- What is to be reported ----------------------------------------------

  /** Brace depth at `p` of the body that starts at `from`. */
  function Depth(s: string, from: nat, p: nat): int
    requires from <= p <= |s|
    decreases p
  {
    if p == from then 1
    else Depth(s, from, p - 1) + (if s[p - 1] == '{' then 1 else if s[p - 1] == '}' then -1 else 0)
  }

  /** `p` lies before the brace that closes the body. */
  ghost predicate InBody(s: string, from: nat, p: nat) {
    from <= p <= |s| && forall k | from <= k <= p :: Depth(s, from, k) >= 1
  }

  ghost predicate Closed(s: string, from: nat) {
    exists k :: from <= k <= |s| && Depth(s, from, k) < 1
  }

  /** The places where successive, non-overlapping matches start. */
  function Matches(s: string, p: nat): seq<nat>
    requires p <= |s|
    decreases |s| - p
  {
    if p == |s| then []
    else if PubFn(s, p).Some? then [p] + Matches(s, PubFn(s, p).value.end)
    else Matches(s, p + 1)
  }

  /** A `pub fn` that stands directly in the body. */
  ghost predicate Direct(s: string, from: nat, p: nat) {
    InBody(s, from, p) && Depth(s, from, p) == 1
  }

  // ---- The scan of one body ------------------------------------------------

  datatype Scan = Names(names: set<string>) | Unterminated

  function Merge(name: Option<string>, rest: Scan): Scan {
    if rest.Unterminated? || name.None? then rest else Names({name.value} + rest.names)
  }

  function ScanBody(s: string, p: nat, depth: nat): Scan
    requires p <= |s| && depth > 0
    decreases |s| - p
  {
    if p == |s| then Unterminated
    else if s[p] == '{' then ScanBody(s, p + 1, depth + 1)
    else if s[p] == '}' then if depth == 1 then Names({}) else ScanBody(s, p + 1, depth - 1)
    else
      var m := PubFn(s, p);
      if m.None? then ScanBody(s, p + 1, depth)
      else Merge(if depth == 1 then Some(m.value.name) else None, ScanBody(s, m.value.end, depth))
  }

  ghost predicate Reported(s: string, from: nat, p: nat, at: nat, name: string)
    requires p <= |s|
  {
    at in Matches(s, p) && at <= |s| && PubFn(s, at).Some? && PubFn(s, at).value.name == name && Direct(s, from, at)
  }

  lemma {:induction false} FlatDepth(s: string, from: nat, p: nat, q: nat)
    requires from <= p <= q <= |s| && forall k | p <= k < q :: s[k] != '{' && s[k] != '}'
    ensures forall k | p <= k <= q :: Depth(s, from, k) == Depth(s, from, p)
    decreases q - p
  {
    if p < q { FlatDepth(s, from, p, q - 1); }
  }

  lemma {:induction false} MatchesAreMatches(s: string, p: nat)
    requires p <= |s|
    ensures forall at | at in Matches(s, p) :: p <= at < |s| && PubFn(s, at).Some?
    decreases |s| - p
  {
    if p < |s| {
      if PubFn(s, p).Some? { MatchesAreMatches(s, PubFn(s, p).value.end); } else { MatchesAreMatches(s, p + 1); }
    }
  }

  ghost predicate Reports(s: string, from: nat, p: nat, name: string)
    requires p <= |s|
  {
    exists at: nat :: Reported(s, from, p, at, name)
  }

  ghost predicate Means(s: string, from: nat, p: nat, scan: Scan)
    requires from <= p <= |s|
  {
    && (scan.Names? <==> Closed(s, from))
    && (scan.Names? ==> forall name :: name in scan.names <==> Reports(s, from, p, name))
  }

  lemma NoMatchAtBrace(s: string, p: nat)
    requires p < |s| && (s[p] == '{' || s[p] == '}')
    ensures PubFn(s, p).None?
  {
    if PubFn(s, p).Some? { MatchHasNoBrace(s, p); }
  }

  /** A step over one character that is no match. */
  lemma SameReports(s: string, from: nat, p: nat, q: nat, name: string)
    requires from <= p < |s| && PubFn(s, p).None? && q == p + 1
    ensures Reports(s, from, p, name) <==> Reports(s, from, q, name)
  {
    assert Matches(s, p) == Matches(s, q);
    if at: nat :| Reported(s, from, p, at, name) { assert Reported(s, from, q, at, name); }
    if at: nat :| Reported(s, from, q, at, name) { assert Reported(s, from, p, at, name); }
  }

  lemma SkipKeepsMeaning(s: string, from: nat, p: nat, scan: Scan)
    requires from <= p < |s| && PubFn(s, p).None? && Means(s, from, p + 1, scan)
    ensures Means(s, from, p, scan)
  {
    forall name ensures Reports(s, from, p, name) <==> Reports(s, from, p + 1, name) {
      SameReports(s, from, p, p + 1, name);
    }
  }

  /** A step over one match. */
  lemma OneMoreReport(s: string, from: nat, p: nat, q: nat, name: string)
    requires InBody(s, from, p) && p < |s| && PubFn(s, p).Some? && q == PubFn(s, p).value.end
    ensures Reports(s, from, p, name)
       <==> (Depth(s, from, p) == 1 && name == PubFn(s, p).value.name) || Reports(s, from, q, name)
  {
    MatchesAreMatches(s, q);
    assert Matches(s, p) == [p] + Matches(s, q);
    if Depth(s, from, p) == 1 && name == PubFn(s, p).value.name { assert Reported(s, from, p, p, name); }
    if at: nat :| Reported(s, from, q, at, name) { assert Reported(s, from, p, at, name); }
    if at: nat :| Reported(s, from, p, at, name) {
      if at != p { assert Reported(s, from, q, at, name); }
    }
  }

  lemma MatchKeepsMeaning(s: string, from: nat, p: nat, scan: Scan)
    requires InBody(s, from, p) && p < |s| && PubFn(s, p).Some? && Means(s, from, PubFn(s, p).value.end, scan)
    ensures Means(s, from, p, Merge(if Depth(s, from, p) == 1 then Some(PubFn(s, p).value.name) else None, scan))
  {
    var m := PubFn(s, p).value;
    forall name
      ensures Reports(s, from, p, name) <==> (Depth(s, from, p) == 1 && name == m.name) || Reports(s, from, m.end, name)
    {
      OneMoreReport(s, from, p, m.end, name);
    }
  }

  /** At the closing brace nothing more is reported. */
  lemma NothingAfterClose(s: string, from: nat, p: nat)
    requires InBody(s, from, p) && p < |s| && s[p] == '}' && Depth(s, from, p) == 1
    ensures Means(s, from, p, Names({}))
  {
    assert Depth(s, from, p + 1) == 0;
    MatchesAreMatches(s, p);
    NoMatchAtBrace(s, p);
    forall name ensures !Reports(s, from, p, name) {
      if at: nat :| Reported(s, from, p, at, name) {
        assert false;
      }
    }
  }

  /**
    The scan of a body fails exactly when the body is never closed.  Otherwise it
    reports exactly the names of the matches at depth one before the close.
   */
  lemma {:induction false} ScanBodyMeans(s: string, from: nat, p: nat)
    requires InBody(s, from, p)
    ensures Means(s, from, p, ScanBody(s, p, Depth(s, from, p)))
    decreases |s| - p
  {
    if p == |s| {
    } else if s[p] == '{' || s[p] == '}' {
      NoMatchAtBrace(s, p);
      if s[p] == '}' && Depth(s, from, p) == 1 {
        NothingAfterClose(s, from, p);
      } else {
        ScanBodyMeans(s, from, p + 1);
        SkipKeepsMeaning(s, from, p, ScanBody(s, p + 1, Depth(s, from, p + 1)));
      }
    } else if PubFn(s, p).None? {
      ScanBodyMeans(s, from, p + 1);
      SkipKeepsMeaning(s, from, p, ScanBody(s, p + 1, Depth(s, from, p + 1)));
    } else {
      var m := PubFn(s, p).value;
      MatchHasNoBrace(s, p);
      FlatDepth(s, from, p, m.end);
      ScanBodyMeans(s, from, m.end);
      MatchKeepsMeaning(s, from, p, ScanBody(s, m.end, Depth(s, from, m.end)));
    }
  }

  // ---- Successive matches and all matches ----------------------------------

  ghost predicate Apart(s: string, p: nat) {
    forall i: nat, j: nat | p <= i < j < |s| && PubFn(s, i).Some? && PubFn(s, j).Some? :: PubFn(s, i).value.end <= j
  }

  lemma {:induction false} MatchesAreApart(s: string, p: nat, i: nat, j: nat)
    requires p <= |s| && i in Matches(s, p) && j in Matches(s, p) && i < j
    ensures j < |s| && PubFn(s, i).Some? && PubFn(s, i).value.end <= j
    decreases |s| - p
  {
    if p < |s| {
      MatchesAreMatches(s, p);
      if PubFn(s, p).Some? {
        var q := PubFn(s, p).value.end;
        MatchesAreMatches(s, q);
        if i != p { MatchesAreApart(s, q, i, j); }
      } else {
        MatchesAreApart(s, p + 1, i, j);
      }
    }
  }

  lemma {:induction false} ApartAreMatched(s: string, p: nat, at: nat)
    requires p <= at < |s| && Apart(s, p) && PubFn(s, at).Some?
    ensures at in Matches(s, p)
    decreases |s| - p
  {
    if PubFn(s, p).Some? {
      if at != p { ApartAreMatched(s, PubFn(s, p).value.end, at); }
    } else {
      ApartAreMatched(s, p + 1, at);
    }
  }

  /** The successive matches are all the matches exactly when no two matches overlap. */
  lemma EveryMatchIffApart(s: string, p: nat)
    requires p <= |s|
    ensures Apart(s, p) <==> forall at: nat | p <= at < |s| && PubFn(s, at).Some? :: at in Matches(s, p)
  {
    if Apart(s, p) {
      forall at: nat | p <= at < |s| && PubFn(s, at).Some? ensures at in Matches(s, p) { ApartAreMatched(s, p, at); }
    }
    if forall at: nat | p <= at < |s| && PubFn(s, at).Some? :: at in Matches(s, p) {
      forall i: nat, j: nat | p <= i < j < |s| && PubFn(s, i).Some? && PubFn(s, j).Some?
        ensures PubFn(s, i).value.end <= j
      {
        MatchesAreApart(s, p, i, j);
      }
    }
  }

  lemma OverlapIsAtName(s: string, i: nat, a: nat, b: nat, end: nat, j: nat, c: nat, d: nat, last: nat)
    requires Shape(s, i, a, b, end) && Shape(s, j, c, d, last) && i < j < end
    ensures j == b
  {
  }

  /** Matches overlap only where a function is called `pub`, which is a keyword. */
  lemma OverlapsAreCalledPub(s: string, i: nat, j: nat)
    requires i < j < |s| && PubFn(s, i).Some? && PubFn(s, j).Some? && j < PubFn(s, i).value.end
    ensures PubFn(s, i).value.name == "pub"
  {
    var a, b := MatchShape(s, i);
    var c, d := MatchShape(s, j);
    OverlapIsAtName(s, i, a, b, PubFn(s, i).value.end, j, c, d, PubFn(s, j).value.end);
    assert IsSpace(s[j + 3]);
    NameIsPub(s, b);
  }

  lemma NameIsPub(s: string, b: nat)
    requires b + 3 < |s| && s[b] == 'p' && s[b + 1] == 'u' && s[b + 2] == 'b' && IsSpace(s[b + 3])
    ensures s[b..NameEnd(s, b)] == "pub"
  {
    assert NameEnd(s, b + 3) == b + 3;
    assert NameEnd(s, b) == NameEnd(s, b + 1) == NameEnd(s, b + 2) == NameEnd(s, b + 3);
  }

  /** A match that starts inside an earlier one, and is not seen for it. */
  ghost predicate Swallowed(s: string, p: nat, at: nat) {
    p <= |s| && exists i: nat :: SwallowedBy(s, p, at, i)
  }

  ghost predicate SwallowedBy(s: string, p: nat, at: nat, i: nat)
    requires p <= |s|
  {
    i in Matches(s, p) && i < at && i < |s| && PubFn(s, i).Some? && at < PubFn(s, i).value.end
  }

  lemma SwallowedLater(s: string, p: nat, q: nat, at: nat)
    requires p < |s| && q <= |s| && q <= at
    requires if PubFn(s, p).Some? then q == PubFn(s, p).value.end else q == p + 1
    ensures Swallowed(s, p, at) <==> Swallowed(s, q, at)
  {
    if i: nat :| SwallowedBy(s, p, at, i) { assert SwallowedBy(s, q, at, i); }
    if i: nat :| SwallowedBy(s, q, at, i) { assert SwallowedBy(s, p, at, i); }
  }

  /** A match is seen exactly when no earlier one swallows it. */
  lemma {:induction false} SeenIffNotSwallowed(s: string, p: nat, at: nat)
    requires p <= at < |s| && PubFn(s, at).Some?
    ensures at in Matches(s, p) <==> !Swallowed(s, p, at)
    decreases |s| - p
  {
    MatchesAreMatches(s, p);
    if PubFn(s, p).Some? {
      var q := PubFn(s, p).value.end;
      MatchesAreMatches(s, q);
      if p < at < q {
        assert SwallowedBy(s, p, at, p);
      } else if q <= at {
        SeenIffNotSwallowed(s, q, at);
        SwallowedLater(s, p, q, at);
      }
    } else {
      SeenIffNotSwallowed(s, p + 1, at);
      SwallowedLater(s, p, p + 1, at);
    }
  }

  ghost predicate NoneCalledPub(s: string) {
    forall i: nat | i < |s| && PubFn(s, i).Some? :: PubFn(s, i).value.name != "pub"
  }

  lemma NoneCalledPubIsApart(s: string, p: nat)
    requires NoneCalledPub(s)
    ensures Apart(s, p)
  {
    forall i: nat, j: nat | p <= i < j < |s| && PubFn(s, i).Some? && PubFn(s, j).Some?
      ensures PubFn(s, i).value.end <= j
    {
      if j < PubFn(s, i).value.end { OverlapsAreCalledPub(s, i, j); }
    }
  }

  // ---- All blocks ----------------------------------------------------------

  function NextHeader(s: string, p: nat): (q: nat)
    requires p <= |s|
    ensures p <= q <= |s| && (q < |s| ==> Header(s, q).Some?)
    decreases |s| - p
  {
    if p == |s| || Header(s, p).Some? then p else NextHeader(s, p + 1)
  }

  lemma {:induction false} NoHeaderBefore(s: string, p: nat, k: nat)
    requires p <= k < |s| && k < NextHeader(s, p)
    ensures Header(s, k).None?
    decreases k - p
  {
    if k > p { NoHeaderBefore(s, p + 1, k); }
  }

  function Join(a: Scan, b: Scan): Scan {
    if a.Unterminated? || b.Unterminated? then Unterminated else Names(a.names + b.names)
  }

  function Collect(s: string, p: nat): Scan
    requires p <= |s|
    decreases |s| - p
  {
    var q := NextHeader(s, p);
    if q == |s| then Names({})
    else
      var from := Header(s, q).value;
      Join(ScanBody(s, from, 1), Collect(s, from))
  }

  /** A header that starts inside another one ends at the same brace. */
  lemma SameBrace(s: string, p: nat, q: nat)
    requires p <= q < |s| && Header(s, p).Some? && Header(s, q).Some? && q < Header(s, p).value
    ensures Header(s, q) == Header(s, p)
  {
    HeaderBrace(s, p);
    HeaderBrace(s, q);
    BraceOpens(s, p);
    FirstBrace(s, p, q);
  }

  ghost predicate BlockFrom(s: string, p: nat, from: nat) {
    exists q: nat :: p <= q < |s| && Header(s, q) == Some(from)
  }

  /** The bodies found from `p` on: that of the next header, and those after its brace. */
  lemma BlocksFromNext(s: string, p: nat, q: nat, from: nat, other: nat)
    requires p <= q < |s| && q == NextHeader(s, p) && Header(s, q) == Some(from)
    ensures BlockFrom(s, p, other) <==> other == from || BlockFrom(s, from, other)
  {
    if k: nat :| p <= k < |s| && Header(s, k) == Some(other) {
      if k < q { NoHeaderBefore(s, p, k); }
      if q <= k < from { SameBrace(s, q, k); }
    }
  }

  ghost predicate AllClosed(s: string, p: nat) {
    forall from: nat | from <= |s| && BlockFrom(s, p, from) :: Closed(s, from)
  }

  lemma AllClosedNext(s: string, p: nat, q: nat, from: nat)
    requires p <= q < |s| && q == NextHeader(s, p) && Header(s, q) == Some(from)
    ensures AllClosed(s, p) <==> Closed(s, from) && AllClosed(s, from)
  {
    BlocksFromNext(s, p, q, from, from);
    forall other: nat | other <= |s| ensures BlockFrom(s, p, other) <==> other == from || BlockFrom(s, from, other) {
      BlocksFromNext(s, p, q, from, other);
    }
  }

  ghost predicate FoundFrom(s: string, p: nat, name: string) {
    exists from: nat :: from <= |s| && BlockFrom(s, p, from) && Reports(s, from, from, name)
  }

  lemma FoundFromNext(s: string, p: nat, q: nat, from: nat, name: string)
    requires p <= q < |s| && q == NextHeader(s, p) && Header(s, q) == Some(from)
    ensures FoundFrom(s, p, name) <==> Reports(s, from, from, name) || FoundFrom(s, from, name)
  {
    BlocksFromNext(s, p, q, from, from);
    if other: nat :| other <= |s| && BlockFrom(s, p, other) && Reports(s, other, other, name) {
      BlocksFromNext(s, p, q, from, other);
    }
    if other: nat :| other <= |s| && BlockFrom(s, from, other) && Reports(s, other, other, name) {
      BlocksFromNext(s, p, q, from, other);
    }
  }

  lemma NoBlocks(s: string, p: nat, from: nat)
    requires p <= |s| && NextHeader(s, p) == |s|
    ensures !BlockFrom(s, p, from)
  {
    if k: nat :| p <= k < |s| && Header(s, k) == Some(from) { NoHeaderBefore(s, p, k); }
  }

  /** The code is accepted exactly when every block is closed. */
  lemma {:induction false} AcceptedIffClosed(s: string, p: nat)
    requires p <= |s|
    ensures Collect(s, p).Names? <==> AllClosed(s, p)
    decreases |s| - p
  {
    var q := NextHeader(s, p);
    if q < |s| {
      var from := Header(s, q).value;
      ScanBodyMeans(s, from, from);
      AcceptedIffClosed(s, from);
      AllClosedNext(s, p, q, from);
    } else {
      forall from: nat ensures !BlockFrom(s, p, from) { NoBlocks(s, p, from); }
    }
  }

  /** A name is collected exactly when a match with that name stands at depth one of a block. */
  lemma {:induction false} CollectedIffFound(s: string, p: nat, name: string)
    requires p <= |s| && Collect(s, p).Names?
    ensures name in Collect(s, p).names <==> FoundFrom(s, p, name)
    decreases |s| - p
  {
    var q := NextHeader(s, p);
    if q < |s| {
      var from := Header(s, q).value;
      ScanBodyMeans(s, from, from);
      CollectedIffFound(s, from, name);
      FoundFromNext(s, p, q, from, name);
    } else {
      forall from: nat ensures !BlockFrom(s, p, from) { NoBlocks(s, p, from); }
    }
  }

  // ---- The whole scanner ---------------------------------------------------

  datatype Outcome = Functions(names: seq<string>) | BadLexing(error: Error) | BadBlock

  ghost predicate IsResult(source: string, r: Outcome) {
    match Mask(source, 0)
    case Rejected(error) => r == BadLexing(error)
    case Code(code) =>
      match Collect(code, 0)
      case Unterminated => r == BadBlock
      case Names(names) =>
        && r.Functions? && StringOrder.Sorted(r.names)
        && (forall i, j | 0 <= i < j < |r.names| :: r.names[i] != r.names[j])
        && forall name :: name in r.names <==> name in names
  }

  /** `name` is a `pub fn` that stands directly in the body of a `contractimpl` block. */
  ghost predicate Exported(code: string, name: string) {
    exists h: nat, from: nat, at: nat :: ExportedAt(code, h, from, at, name)
  }

  ghost predicate ExportedAt(code: string, h: nat, from: nat, at: nat, name: string) {
    && h < |code| && Header(code, h) == Some(from)
    && at < |code| && Direct(code, from, at)
    && PubFn(code, at).Some? && PubFn(code, at).value.name == name
  }

  /** An exported `pub fn` of this name that no earlier match of its block swallows. */
  ghost predicate Seen(code: string, name: string) {
    exists h: nat, from: nat, at: nat :: SeenAt(code, h, from, at, name)
  }

  ghost predicate SeenAt(code: string, h: nat, from: nat, at: nat, name: string) {
    ExportedAt(code, h, from, at, name) && !Swallowed(code, from, at)
  }

  lemma FoundIsSeen(code: string, name: string)
    ensures FoundFrom(code, 0, name) <==> Seen(code, name)
  {
    if FoundFrom(code, 0, name) {
      var from: nat :| from <= |code| && BlockFrom(code, 0, from) && Reports(code, from, from, name);
      var h: nat :| 0 <= h < |code| && Header(code, h) == Some(from);
      var at: nat :| Reported(code, from, from, at, name);
      MatchesAreMatches(code, from);
      SeenIffNotSwallowed(code, from, at);
      assert SeenAt(code, h, from, at, name);
    }
    if h: nat, from: nat, at: nat :| SeenAt(code, h, from, at, name) {
      SeenIffNotSwallowed(code, from, at);
      assert Reported(code, from, from, at, name);
      assert BlockFrom(code, 0, from);
    }
  }

  /** For every accepted source a name is reported exactly when an exported match with that name is seen. */
  lemma ReportedIffSeen(source: string, r: Outcome, name: string)
    requires IsResult(source, r) && r.Functions?
    ensures name in r.names <==> Seen(Mask(source, 0).text, name)
  {
    CollectedIffFound(Mask(source, 0).text, 0, name);
    FoundIsSeen(Mask(source, 0).text, name);
  }

  lemma SeenIsExported(code: string, name: string)
    requires Seen(code, name)
    ensures Exported(code, name)
  {
    var h: nat, from: nat, at: nat :| SeenAt(code, h, from, at, name);
    assert ExportedAt(code, h, from, at, name);
  }

  /**
    The scanner reports exactly the exported names if and only if each of them
    has an exported match that does not start inside an earlier one.
   */
  lemma ReportsExactlyTheExported(source: string, r: Outcome)
    requires IsResult(source, r) && r.Functions?
    ensures (forall name :: name in r.names <==> Exported(Mask(source, 0).text, name))
       <==> (forall name | Exported(Mask(source, 0).text, name) :: Seen(Mask(source, 0).text, name))
  {
    var code := Mask(source, 0).text;
    forall name ensures name in r.names <==> Seen(code, name) { ReportedIffSeen(source, r, name); }
    forall name | Seen(code, name) ensures Exported(code, name) { SeenIsExported(code, name); }
  }

  /** So it does for every source without a function called `pub`, which Rust does not allow. */
  lemma KeywordsAreNoNames(source: string, r: Outcome, name: string)
    requires IsResult(source, r) && r.Functions? && NoneCalledPub(Mask(source, 0).text)
    ensures name in r.names <==> Exported(Mask(source, 0).text, name)
  {
    var code := Mask(source, 0).text;
    ReportedIffSeen(source, r, name);
    if Seen(code, name) { SeenIsExported(code, name); }
    if h: nat, from: nat, at: nat :| ExportedAt(code, h, from, at, name) {
      NoneCalledPubIsApart(code, from);
      EveryMatchIffApart(code, from);
      SeenIffNotSwallowed(code, from, at);
      assert SeenAt(code, h, from, at, name);
    }
  }

  // ---- A source that loses a name ------------------------------------------

  lemma {:induction false} NothingToMask(s: string, p: nat)
    requires p <= |s| && '/' !in s && '"' !in s
    ensures NextToken(s, p) == |s|
    decreases |s| - p
  {
    if p < |s| {
      assert s[p] in s;
      if Has(s, p, "//") { LettersAt(s, p, "//"); }
      if Has(s, p, "/*") { LettersAt(s, p, "/*"); }
      var q := p + 1 + Hashes(s, p + 1);
      assert q < |s| ==> s[q] in s;
      NothingToMask(s, p + 1);
    }
  }

  lemma WordAt(s: string, p: nat, text: string)
    requires p + |text| <= |s| && forall k | 0 <= k < |text| :: s[p + k] == text[k]
    ensures Has(s, p, text)
  {
    assert s[p..p + |text|] == text;
  }

  ghost predicate Losing(s: string) {
    s == "#[contractimpl]" + "impl X{" + "pub fn " + "pub fn x}"
  }

  // The same, letter by letter.

  ghost predicate AttributeAt(s: string, p: nat) {
    && |s| >= p + 15
    && s[p] == '#' && s[p + 1] == '[' && s[p + 2] == 'c' && s[p + 3] == 'o' && s[p + 4] == 'n'
    && s[p + 5] == 't' && s[p + 6] == 'r' && s[p + 7] == 'a' && s[p + 8] == 'c' && s[p + 9] == 't'
    && s[p + 10] == 'i' && s[p + 11] == 'm' && s[p + 12] == 'p' && s[p + 13] == 'l' && s[p + 14] == ']'
  }

  ghost predicate ImplAt(s: string, p: nat) {
    && |s| >= p + 7
    && s[p] == 'i' && s[p + 1] == 'm' && s[p + 2] == 'p' && s[p + 3] == 'l' && s[p + 4] == ' '
    && s[p + 5] == 'X' && s[p + 6] == '{'
  }

  ghost predicate FirstFnAt(s: string, p: nat) {
    && |s| >= p + 7
    && s[p] == 'p' && s[p + 1] == 'u' && s[p + 2] == 'b' && s[p + 3] == ' ' && s[p + 4] == 'f'
    && s[p + 5] == 'n' && s[p + 6] == ' '
  }

  ghost predicate LastFnAt(s: string, p: nat) {
    && |s| >= p + 9
    && s[p] == 'p' && s[p + 1] == 'u' && s[p + 2] == 'b' && s[p + 3] == ' ' && s[p + 4] == 'f'
    && s[p + 5] == 'n' && s[p + 6] == ' ' && s[p + 7] == 'x' && s[p + 8] == '}'
  }

  ghost predicate Spelled(s: string) {
    |s| == 38 && AttributeAt(s, 0) && ImplAt(s, 15) && FirstFnAt(s, 22) && LastFnAt(s, 29)
  }

  lemma SpellAttribute(s: string, before: string, after: string)
    requires s == before + "#[contractimpl]" + after
    ensures |s| == |before| + 15 + |after| && AttributeAt(s, |before|)
  {
  }

  lemma SpellImpl(s: string, before: string, after: string)
    requires s == before + "impl X{" + after
    ensures |s| == |before| + 7 + |after| && ImplAt(s, |before|)
  {
  }

  lemma SpellFirstFn(s: string, before: string, after: string)
    requires s == before + "pub fn " + after
    ensures |s| == |before| + 7 + |after| && FirstFnAt(s, |before|)
  {
  }

  lemma SpellLastFn(s: string, before: string, after: string)
    requires s == before + "pub fn x}" + after
    ensures |s| == |before| + 9 + |after| && LastFnAt(s, |before|)
  {
  }

  lemma LosingIsSpelled(s: string)
    requires Losing(s)
    ensures Spelled(s)
  {
    var a, b, c, d := "#[contractimpl]", "impl X{", "pub fn ", "pub fn x}";
    assert s == [] + a + (b + c + d) && s == a + b + (c + d) && s == (a + b) + c + d && s == (a + b + c) + d + [];
    SpellAttribute(s, [], b + c + d);
    SpellImpl(s, a, c + d);
    SpellFirstFn(s, a + b, d);
    SpellLastFn(s, a + b + c, []);
  }

  lemma LosingHeader(s: string)
    requires Spelled(s)
    ensures Header(s, 0) == Some(22)
  {
    WordAt(s, 0, "#[");
    WordAt(s, 2, "contractimpl");
    WordAt(s, 14, "]");
    LosingGaps(s);
    LosingBrace(s);
    AttributeFrom(s, 0, 2, 14);
  }

  lemma LosingGaps(s: string)
    requires Spelled(s)
    ensures |s| == 38 && SkipSpaces(s, 2) == 2 && SkipSpaces(s, 14) == 14 && SkipSpaces(s, 15) == 15
  {
  }

  lemma LosingBrace(s: string)
    requires Spelled(s)
    ensures ImplBrace(s, 15) == Some(22)
  {
    WordAt(s, 15, "impl");
    FirstBrace(s, 19, 21);
    assert OpenBrace(s, 21) == 21;
  }

  lemma AttributeFrom(s: string, p: nat, a: nat, b: nat)
    requires Has(s, p, "#[") && a == SkipSpaces(s, p + 2) && Has(s, a, "contractimpl")
    requires b == SkipSpaces(s, a + 12) && Has(s, b, "]")
    ensures Attribute(s, p) == Some(SkipSpaces(s, b + 1))
  {
  }

  lemma LosingBlock(s: string, from: nat)
    requires Spelled(s) && BlockFrom(s, 0, from)
    ensures from == 22
  {
    LosingHeader(s);
    var q: nat :| 0 <= q < |s| && Header(s, q) == Some(from);
    OnlyHeader(s, q);
  }

  lemma OnlyHeader(s: string, q: nat)
    requires Spelled(s) && q < |s| && Header(s, q).Some?
    ensures q == 0
  {
    HeaderBrace(s, q);
    OneHash(s);
  }

  lemma OneHash(s: string)
    requires Spelled(s)
    ensures forall k | 0 < k < |s| :: s[k] != '#'
  {
  }

  lemma LosingMatches(s: string)
    requires Spelled(s)
    ensures PubFn(s, 29).Some? && PubFn(s, 29).value.name == "x"
    ensures PubFn(s, 22).Some? && PubFn(s, 22).value.name == "pub" && Matches(s, 22) == [22]
  {
    WordAt(s, 22, "pub");
    WordAt(s, 26, "fn");
    WordAt(s, 29, "pub");
    WordAt(s, 33, "fn");
    assert SkipSpaces(s, 26) == 26 && SkipSpaces(s, 29) == 29 && SkipSpaces(s, 33) == 33 && SkipSpaces(s, 36) == 36;
    assert SkipSpaces(s, 25) == 26 && SkipSpaces(s, 28) == 29 && SkipSpaces(s, 32) == 33 && SkipSpaces(s, 35) == 36;
    assert NameEnd(s, 32) == 32 && NameEnd(s, 31) == 32 && NameEnd(s, 30) == 32 && NameEnd(s, 29) == 32;
    assert NameEnd(s, 37) == 37 && NameEnd(s, 36) == 37 && s[36..37] == "x" && s[29..32] == "pub";
    MatchesAreMatches(s, 32);
    if Matches(s, 32) != [] {
      var at := Matches(s, 32)[0];
      assert at in Matches(s, 32);
      var _, _ := MatchShape(s, at);
      assert false;
    }
    assert Matches(s, 22) == [22] + Matches(s, 32);
  }

  lemma LosingIsCode(s: string)
    requires Spelled(s)
    ensures Mask(s, 0) == Code(s)
  {
    NothingToMask(s, 0);
    assert s[0..] == s;
  }

  lemma LosingDepths(s: string)
    requires Spelled(s)
    ensures Direct(s, 22, 29) && Closed(s, 22)
  {
    FlatDepth(s, 22, 22, 37);
    assert Depth(s, 22, 38) == 0;
  }

  lemma LosingFindsNoX(s: string)
    requires Spelled(s)
    ensures !FoundFrom(s, 0, "x")
  {
    LosingMatches(s);
    if FoundFrom(s, 0, "x") {
      var from: nat :| from <= |s| && BlockFrom(s, 0, from) && Reports(s, from, from, "x");
      LosingBlock(s, from);
      assert false;
    }
  }

  lemma SpelledIsLost(source: string, r: Outcome)
    requires Spelled(source) && IsResult(source, r)
    ensures r.Functions? && Exported(Mask(source, 0).text, "x") && "x" !in r.names
  {
    LosingIsCode(source);
    LosingDepths(source);
    forall from: nat | BlockFrom(source, 0, from) ensures Closed(source, from) { LosingBlock(source, from); }
    AcceptedIffClosed(source, 0);
    LosingFindsNoX(source);
    CollectedIffFound(source, 0, "x");
    LosingHeader(source);
    LosingMatches(source);
    assert ExportedAt(source, 0, 22, 29, "x");
  }

  /**
    This source is accepted, exports `x`, and is scanned without it: the inner
    match starts at the name of the outer one.
   */
  lemma SwallowedNameIsLost(source: string, r: Outcome)
    requires Losing(source) && IsResult(source, r)
    ensures r.Functions? && Exported(Mask(source, 0).text, "x") && "x" !in r.names
  {
    LosingIsSpelled(source);
    SpelledIsLost(source, r);
  }

  /** The result depends on the masked text alone. */
  lemma ResultDependsOnMask(s: string, t: string, a: Outcome, b: Outcome)
    requires Mask(s, 0) == Mask(t, 0) && IsResult(s, a) && IsResult(t, b)
    ensures a == b
  {
    if a.Functions? { DistinctSortedIsUnique(a.names, b.names); }
  }

  lemma DistinctSortedIsUnique(a: seq<string>, b: seq<string>)
    requires StringOrder.Sorted(a) && StringOrder.Sorted(b)
    requires forall i, j | 0 <= i < j < |a| :: a[i] != a[j]
    requires forall i, j | 0 <= i < j < |b| :: b[i] != b[j]
    requires forall x :: x in a <==> x in b
    ensures a == b
  {
    DistinctCounts(a);
    DistinctCounts(b);
    forall x ensures multiset(a)[x] == multiset(b)[x] { assert x in a <==> x in b; }
    StringOrder.SortedIsUnique(a, b);
  }

  lemma {:induction false} DistinctCounts(a: seq<string>)
    requires forall i, j | 0 <= i < j < |a| :: a[i] != a[j]
    ensures forall x :: multiset(a)[x] == if x in a then 1 else 0
    decreases |a|
  {
    if a != [] {
      DistinctCounts(a[1..]);
      assert a == [a[0]] + a[1..];
      assert a[0] !in a[1..];
    }
  }

  // ---- The loops -----------------------------------------------------------

  function Absorb(found: set<string>, scan: Scan): Scan {
    Join(Names(found), scan)
  }

  method ScanBlock(code: string, from: nat) returns (r: Scan)
    requires from <= |code|
    ensures r == ScanBody(code, from, 1)
  {
    var p, depth := from, 1;
    var functions: set<string> := {};
    while p < |code|
      invariant from <= p <= |code| && depth > 0
      invariant ScanBody(code, from, 1) == Absorb(functions, ScanBody(code, p, depth))
      decreases |code| - p
    {
      if code[p] == '{' {
        depth := depth + 1;
        p := p + 1;
      } else if code[p] == '}' {
        depth := depth - 1;
        if depth == 0 { return Names(functions); }
        p := p + 1;
      } else {
        var m := PubFn(code, p);
        if m.Some? {
          if depth == 1 {
            functions := functions + {m.value.name};
          }
          p := m.value.end;
        } else {
          p := p + 1;
        }
      }
    }
    r := Unterminated;
  }

  method SortNames(names: set<string>) returns (r: seq<string>)
    ensures StringOrder.Sorted(r) && (forall i, j | 0 <= i < j < |r| :: r[i] != r[j])
    ensures forall name :: name in r <==> name in names
  {
    var listed: seq<string> := [];
    var rest := names;
    while rest != {}
      invariant rest <= names && forall name :: name in listed <==> name in names && name !in rest
      invariant forall i, j | 0 <= i < j < |listed| :: listed[i] != listed[j]
      decreases |rest|
    {
      var name :| name in rest;
      listed := listed + [name];
      rest := rest - {name};
    }
    r := StringOrder.Sort(listed);
    SortedStaysDistinct(listed, r);
  }

  lemma TwiceCounts(b: seq<string>, i: nat, j: nat)
    requires i < j < |b| && b[i] == b[j]
    ensures multiset(b)[b[j]] >= 2
  {
    assert b == b[..j] + [b[j]] + b[j + 1..];
    assert b[i] in b[..j];
  }

  lemma SortedStaysDistinct(a: seq<string>, b: seq<string>)
    requires multiset(a) == multiset(b) && forall i, j | 0 <= i < j < |a| :: a[i] != a[j]
    ensures forall i, j | 0 <= i < j < |b| :: b[i] != b[j]
    ensures forall x :: x in a <==> x in b
  {
    DistinctCounts(a);
    forall i, j | 0 <= i < j < |b| ensures b[i] != b[j] {
      if b[i] == b[j] { TwiceCounts(b, i, j); }
    }
    forall x ensures x in a <==> x in b { assert x in multiset(a) <==> x in multiset(b); }
  }

  lemma CollectStep(s: string, p: nat, functions: set<string>, from: nat, body: Scan)
    requires p <= |s| && NextHeader(s, p) < |s| && Header(s, NextHeader(s, p)) == Some(from)
    requires body == ScanBody(s, from, 1)
    ensures Absorb(functions, Collect(s, p))
         == if body.Unterminated? then Unterminated else Absorb(functions + body.names, Collect(s, from))
  {
  }

  method CollectBlocks(code: string) returns (r: Scan)
    ensures r == Collect(code, 0)
  {
    var functions: set<string> := {};
    var at := 0;
    var block := NextHeader(code, at);
    while block < |code|
      invariant at <= |code| && block == NextHeader(code, at)
      invariant Collect(code, 0) == Absorb(functions, Collect(code, at))
      decreases |code| - at
    {
      var from := Header(code, block).value;
      var body := ScanBlock(code, from);
      CollectStep(code, at, functions, from, body);
      if body.Unterminated? { return Unterminated; }
      functions := functions + body.names;
      at := from;
      block := NextHeader(code, at);
    }
    r := Names(functions);
  }

  method ContractFunctions(source: string) returns (r: Outcome)
    ensures IsResult(source, r)
  {
    var masked := MaskSource(source);
    if masked.Rejected? { return BadLexing(masked.error); }
    var functions := CollectBlocks(masked.text);
    if functions.Unterminated? { return BadBlock; }
    var names := SortNames(functions.names);
    r := Functions(names);
  }
}
