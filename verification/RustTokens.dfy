/**
  The tokens of Rust that the scanner blanks, as a grammar: line comments, nested
  block comments, string literals and raw strings.
 */
module RustTokens {
  import opened Options
  import opened RustLexer

  ghost predicate TwoAt(s: string, p: nat, a: char, b: char) {
    p + 2 <= |s| && s[p] == a && s[p + 1] == b
  }

  lemma HasTwo(s: string, p: nat, text: string)
    requires |text| == 2
    ensures Has(s, p, text) <==> TwoAt(s, p, text[0], text[1])
  {
    if p + 2 <= |s| { assert s[p..p + 2] == [s[p], s[p + 1]]; }
  }

  // ---- Line comments -------------------------------------------------------

  /** Two slashes, and everything up to the end of the line. */
  ghost predicate LineForm(s: string, p: nat, e: nat) {
    && TwoAt(s, p, '/', '/') && p + 2 <= e <= |s|
    && (forall k | p + 2 <= k < e :: s[k] != '\n')
    && (e < |s| ==> s[e] == '\n')
  }

  lemma {:induction false} LineEndIff(s: string, p: nat, e: nat)
    requires p <= e <= |s|
    ensures LineEnd(s, p) == e <==> (forall k | p <= k < e :: s[k] != '\n') && (e < |s| ==> s[e] == '\n')
    decreases |s| - p
  {
    if p < |s| && s[p] != '\n' && p < e { LineEndIff(s, p + 1, e); }
    else if p < |s| && s[p] != '\n' { LineEndLater(s, p); }
  }

  lemma LineEndLater(s: string, p: nat)
    requires p < |s| && s[p] != '\n'
    ensures LineEnd(s, p) > p
  {
  }

  // ---- String literals -----------------------------------------------------

  /** Characters other than quotes and backslashes, and pairs of a backslash and anything but a newline. */
  ghost predicate Body(s: string, i: nat, j: nat)
    requires j <= |s|
    decreases j - i
  {
    || i == j
    || (i < j && s[i] != '"' && s[i] != '\\' && Body(s, i + 1, j))
    || (i + 1 < j && s[i] == '\\' && s[i + 1] != '\n' && Body(s, i + 2, j))
  }

  ghost predicate StringForm(s: string, p: nat, e: nat) {
    p + 2 <= e <= |s| && s[p] == '"' && s[e - 1] == '"' && Body(s, p + 1, e - 1)
  }

  lemma {:induction false} LiteralEndIff(s: string, p: nat, e: nat)
    requires p <= |s|
    ensures LiteralEnd(s, p) == Some(e) <==> p < e <= |s| && s[e - 1] == '"' && Body(s, p, e - 1)
    decreases |s| - p
  {
    if p < |s| && s[p] == '\\' {
      if p + 1 < |s| && s[p + 1] != '\n' { LiteralEndIff(s, p + 2, e); }
    } else if p < |s| && s[p] != '"' {
      LiteralEndIff(s, p + 1, e);
    }
  }

  // ---- Block comments ------------------------------------------------------

  /** Comments, and characters that start neither delimiter. */
  ghost predicate Inner(s: string, i: nat, j: nat)
    requires j <= |s|
    decreases j - i, 1
  {
    || i == j
    || (i < j && !TwoAt(s, i, '/', '*') && !TwoAt(s, i, '*', '/') && Inner(s, i + 1, j))
    || (exists m | i < m <= j :: Comment(s, i, m) && Inner(s, m, j))
  }

  /** An opening delimiter, what is inside, and the closing one. */
  ghost predicate Comment(s: string, i: nat, j: nat)
    requires j <= |s|
    decreases j - i, 0
  {
    i + 4 <= j && TwoAt(s, i, '/', '*') && TwoAt(s, j - 2, '*', '/') && Inner(s, i + 2, j - 2)
  }

  /** What is inside leaves the depth as it is. */
  lemma {:induction false} InnerKeepsDepth(s: string, i: nat, j: nat, depth: nat)
    requires i <= j <= |s| && Inner(s, i, j) && depth > 0
    ensures BlockEnd(s, i, depth) == BlockEnd(s, j, depth)
    decreases j - i, 1
  {
    HasTwo(s, i, "/*");
    HasTwo(s, i, "*/");
    if i < j {
      if !TwoAt(s, i, '/', '*') && !TwoAt(s, i, '*', '/') && Inner(s, i + 1, j) {
        InnerKeepsDepth(s, i + 1, j, depth);
      } else {
        var m :| i < m <= j && Comment(s, i, m) && Inner(s, m, j);
        CommentKeepsDepth(s, i, m, depth);
        InnerKeepsDepth(s, m, j, depth);
      }
    }
  }

  lemma {:induction false} CommentKeepsDepth(s: string, i: nat, j: nat, depth: nat)
    requires i <= j <= |s| && Comment(s, i, j)
    ensures depth > 0 ==> BlockEnd(s, i, depth) == BlockEnd(s, j, depth)
    ensures BlockEnd(s, i + 2, depth + 1) == BlockEnd(s, j, depth)
    decreases j - i, 0
  {
    HasTwo(s, i, "/*");
    HasTwo(s, j - 2, "*/");
    HasTwo(s, j - 2, "/*");
    InnerKeepsDepth(s, i + 2, j - 2, depth + 1);
  }

  /** The comment that is `depth` deep at `p` ends at `e`. */
  ghost predicate EndsAt(s: string, p: nat, depth: nat, e: nat) {
    p <= |s| && BlockEnd(s, p, depth) == Some(e)
  }

  /** A scan that ends has read what is inside, a closing delimiter, and the rest. */
  lemma {:induction false} DepthIsInner(s: string, p: nat, depth: nat, e: nat) returns (q: nat)
    requires depth > 0 && EndsAt(s, p, depth, e)
    ensures p <= q && TwoAt(s, q, '*', '/') && Inner(s, p, q) && EndsAt(s, q + 2, depth - 1, e)
    decreases |s| - p, 1
  {
    OneReading(s, p, depth, e);
    if TwoAt(s, p, '/', '*') { q := DepthOpens(s, p, depth, e); }
    else if TwoAt(s, p, '*', '/') { q := p; }
    else { q := DepthGoesOn(s, p, depth, e); }
  }

  lemma {:induction false} DepthOpens(s: string, p: nat, depth: nat, e: nat) returns (q: nat)
    requires depth > 0 && TwoAt(s, p, '/', '*') && EndsAt(s, p + 2, depth + 1, e)
    ensures p <= q && TwoAt(s, q, '*', '/') && Inner(s, p, q) && EndsAt(s, q + 2, depth - 1, e)
    decreases |s| - p, 0
  {
    var m := DepthIsInner(s, p + 2, depth + 1, e);
    q := DepthIsInner(s, m + 2, depth, e);
    CommentInside(s, p, m + 2, q);
  }

  lemma {:induction false} DepthGoesOn(s: string, p: nat, depth: nat, e: nat) returns (q: nat)
    requires depth > 0 && p < |s| && EndsAt(s, p + 1, depth, e)
    requires !TwoAt(s, p, '/', '*') && !TwoAt(s, p, '*', '/')
    ensures p <= q && TwoAt(s, q, '*', '/') && Inner(s, p, q) && EndsAt(s, q + 2, depth - 1, e)
    decreases |s| - p, 0
  {
    q := DepthIsInner(s, p + 1, depth, e);
  }

  lemma OneReading(s: string, p: nat, depth: nat, e: nat)
    requires depth > 0 && EndsAt(s, p, depth, e)
    ensures p < |s|
    ensures if TwoAt(s, p, '/', '*') then EndsAt(s, p + 2, depth + 1, e)
            else if TwoAt(s, p, '*', '/') then EndsAt(s, p + 2, depth - 1, e)
            else EndsAt(s, p + 1, depth, e)
  {
    HasTwo(s, p, "/*");
    HasTwo(s, p, "*/");
  }

  lemma CommentInside(s: string, i: nat, m: nat, j: nat)
    requires i + 4 <= m <= j <= |s| && TwoAt(s, i, '/', '*') && TwoAt(s, m - 2, '*', '/') && Inner(s, i + 2, m - 2)
    requires Inner(s, m, j)
    ensures Inner(s, i, j)
  {
    assert Comment(s, i, m);
  }

  lemma CommentIff(s: string, p: nat, e: nat)
    requires p <= |s| && TwoAt(s, p, '/', '*')
    ensures BlockEnd(s, p + 2, 1) == Some(e) <==> e <= |s| && Comment(s, p, e)
  {
    if BlockEnd(s, p + 2, 1) == Some(e) {
      var q := DepthIsInner(s, p + 2, 1, e);
      assert e == q + 2;
    }
    if e <= |s| && Comment(s, p, e) { CommentKeepsDepth(s, p, e, 0); }
  }

  // ---- Raw strings ---------------------------------------------------------

  /** A quote and `n` hashes. */
  ghost predicate Closes(s: string, q: nat, n: nat) {
    q + 1 + n <= |s| && s[q] == '"' && forall k | q < k <= q + n :: s[k] == '#'
  }

  /** `r`, hashes and a quote. */
  ghost predicate RawOpens(s: string, p: nat, n: nat) {
    p + 1 + n < |s| && s[p] == 'r' && (forall k | p < k <= p + n :: s[k] == '#') && s[p + 1 + n] == '"'
  }

  /** It ends with the first quote that as many hashes follow. */
  ghost predicate RawForm(s: string, p: nat, e: nat, n: nat) {
    && RawOpens(s, p, n) && p + 2 + n <= e - 1 - n && e <= |s|
    && Closes(s, e - 1 - n, n)
    && forall q | p + 2 + n <= q < e - 1 - n :: !Closes(s, q, n)
  }

  lemma {:induction false} HashesIff(s: string, p: nat, n: nat)
    requires p <= |s|
    ensures Hashes(s, p) == n <==>
              p + n <= |s| && (forall k | p <= k < p + n :: s[k] == '#') && (p + n < |s| ==> s[p + n] != '#')
    decreases |s| - p
  {
    if p < |s| && s[p] == '#' && n > 0 { HashesIff(s, p + 1, n - 1); }
  }

  lemma HasClosing(s: string, q: nat, n: nat)
    ensures Has(s, q, "\"" + Repeat('#', n)) <==> Closes(s, q, n)
  {
    var closing := "\"" + Repeat('#', n);
    if q + 1 + n <= |s| {
      var found := s[q..q + 1 + n];
      if found == closing {
        forall k | q < k <= q + n ensures s[k] == '#' { assert found[k - q] == closing[k - q]; }
        assert found[0] == closing[0];
      }
      if Closes(s, q, n) { assert found == closing; }
    }
  }

  lemma RawIff(s: string, p: nat, e: nat, n: nat)
    requires p < |s| && RawOpens(s, p, n) && Opens(s, p) == Some(Raw(n))
    ensures TokenEnd(s, p, Raw(n)) == At(e) <==> RawForm(s, p, e, n)
  {
    var closing := "\"" + Repeat('#', n);
    var from := p + 2 + n;
    forall q: nat ensures Has(s, q, closing) <==> Closes(s, q, n) { HasClosing(s, q, n); }
    var finish := Find(s, from, closing);
    if RawForm(s, p, e, n) {
      assert Closes(s, e - 1 - n, n);
      assert finish.Some?;
      assert finish.value == e - 1 - n;
    }
  }

  // ---- Tokens --------------------------------------------------------------

  /** A whole token from `p` to `e`. */
  ghost predicate IsToken(s: string, p: nat, e: nat) {
    e <= |s| && (LineForm(s, p, e) || Comment(s, p, e) || StringForm(s, p, e) || exists n: nat :: RawForm(s, p, e, n))
  }

  /** The start of a token: of a comment, of a string that is closed, or of a raw string. */
  ghost predicate Begins(s: string, p: nat) {
    || TwoAt(s, p, '/', '/') || TwoAt(s, p, '/', '*')
    || (exists e: nat :: StringForm(s, p, e)) || (exists n: nat :: RawOpens(s, p, n))
  }

  lemma RawOpensIff(s: string, p: nat, n: nat)
    requires p < |s| && s[p] == 'r'
    ensures Opens(s, p) == Some(Raw(n)) <==> RawOpens(s, p, n)
  {
    HasTwo(s, p, "//");
    HasTwo(s, p, "/*");
    HashesIff(s, p + 1, n);
    HashesIff(s, p + 1, Hashes(s, p + 1));
  }

  /** The pattern of the scanner matches exactly where a token begins. */
  lemma OpensIff(s: string, p: nat)
    requires p < |s|
    ensures Opens(s, p).Some? <==> Begins(s, p)
  {
    HasTwo(s, p, "//");
    HasTwo(s, p, "/*");
    if s[p] == '"' {
      forall e: nat ensures LiteralEnd(s, p + 1) == Some(e) <==> StringForm(s, p, e) { LiteralEndIff(s, p + 1, e); }
    } else if s[p] == 'r' {
      forall n: nat ensures Opens(s, p) == Some(Raw(n)) <==> RawOpens(s, p, n) { RawOpensIff(s, p, n); }
    }
  }

  /** And a token that begins at `p` ends where the scanner has it end. */
  lemma TokenIff(s: string, p: nat, e: nat)
    requires p < |s| && Opens(s, p).Some?
    ensures TokenEnd(s, p, Opens(s, p).value) == At(e) <==> IsToken(s, p, e)
  {
    HasTwo(s, p, "//");
    HasTwo(s, p, "/*");
    match Opens(s, p).value
    case LineComment(end) =>
      LineEndIff(s, p + 2, end);
      if p + 2 <= e <= |s| { LineEndIff(s, p + 2, e); }
    case BlockComment => CommentIff(s, p, e);
    case Literal(end) => LiteralEndIff(s, p + 1, end); LiteralEndIff(s, p + 1, e);
    case Raw(n) => RawTokenIff(s, p, e, n);
  }

  lemma RawTokenIff(s: string, p: nat, e: nat, n: nat)
    requires p < |s| && Opens(s, p) == Some(Raw(n))
    ensures TokenEnd(s, p, Raw(n)) == At(e) <==> IsToken(s, p, e)
  {
    HasTwo(s, p, "//");
    HasTwo(s, p, "/*");
    assert s[p] == 'r';
    RawOpensIff(s, p, n);
    RawIff(s, p, e, n);
    forall m: nat | RawForm(s, p, e, m) ensures m == n { RawOpensIff(s, p, m); }
  }

  /** The tokens from `cursor` on: none begins between them. */
  ghost predicate Tokens(s: string, cursor: nat, spans: seq<Span>)
    requires cursor <= |s|
    decreases |spans|
  {
    if spans == [] then forall k | cursor <= k < |s| :: !Begins(s, k)
    else
      var t := spans[0];
      && cursor <= t.start < t.end <= |s|
      && (forall k | cursor <= k < t.start :: !Begins(s, k))
      && Begins(s, t.start) && IsToken(s, t.start, t.end)
      && Tokens(s, t.end, spans[1..])
  }

  lemma {:induction false} TokensAreTokens(s: string, cursor: nat, spans: seq<Span>)
    requires cursor <= |s|
    ensures AreTokens(s, cursor, spans) <==> Tokens(s, cursor, spans)
    decreases |spans|
  {
    forall k | cursor <= k < |s| ensures Opens(s, k).Some? <==> Begins(s, k) { OpensIff(s, k); }
    if spans != [] {
      var t := spans[0];
      if cursor <= t.start < t.end <= |s| && Opens(s, t.start).Some? {
        TokenIff(s, t.start, t.end);
        TokensAreTokens(s, t.end, spans[1..]);
      }
    }
  }

  /** The scan finds exactly the comments and literals of the source, as the grammar has them. */
  lemma LexIff(s: string, spans: seq<Span>)
    ensures Lex(s, 0) == Spans(spans) <==> Tokens(s, 0, spans)
  {
    LexFindsTokens(s, 0, spans);
    TokensAreTokens(s, 0, spans);
  }

  /** It fails exactly when it meets a block comment or a raw string that does not end, with the error for that. */
  lemma MissingIff(s: string, p: nat)
    requires p < |s| && Opens(s, p).Some? && (forall e: nat :: !IsToken(s, p, e))
    ensures TokenEnd(s, p, Opens(s, p).value)
         == Missing(if TwoAt(s, p, '/', '*') then UnterminatedComment else UnterminatedRaw)
  {
    HasTwo(s, p, "//");
    HasTwo(s, p, "/*");
    var ending := TokenEnd(s, p, Opens(s, p).value);
    if ending.At? { TokenIff(s, p, ending.end); }
  }
}
