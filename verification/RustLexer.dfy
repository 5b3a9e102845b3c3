/**
  The first half of the contract scanner: comments and literals of a Rust source
  are blanked, so that braces can be balanced in what is left.
 */
module RustLexer {
  import opened Options

  /** What the token pattern matches at a position; a comment or raw string is only opened by it. */
  datatype Opening = LineComment(end: nat) | BlockComment | Literal(end: nat) | Raw(hashes: nat)

  datatype Error = UnterminatedComment | UnterminatedRaw

  /** Where a token ends, if it does. */
  datatype Ending = At(end: nat) | Missing(error: Error)

  // ---- Tokens --------------------------------------------------------------

  predicate Has(s: string, p: nat, text: string) {
    p + |text| <= |s| && s[p..p + |text|] == text
  }

  function LineEnd(s: string, p: nat): (e: nat)
    requires p <= |s|
    ensures p <= e <= |s|
    decreases |s| - p
  {
    if p == |s| || s[p] == '\n' then p else LineEnd(s, p + 1)
  }

  /** The end of a string literal whose body starts at `p`; a backslash takes any character but a newline along. */
  function LiteralEnd(s: string, p: nat): (e: Option<nat>)
    requires p <= |s|
    ensures e.Some? ==> p < e.value <= |s|
    decreases |s| - p
  {
    if p == |s| then None
    else if s[p] == '"' then Some(p + 1)
    else if s[p] == '\\' then
      if p + 1 < |s| && s[p + 1] != '\n' then LiteralEnd(s, p + 2) else None
    else LiteralEnd(s, p + 1)
  }

  function Hashes(s: string, p: nat): (n: nat)
    requires p <= |s|
    ensures p + n <= |s|
    decreases |s| - p
  {
    if p < |s| && s[p] == '#' then 1 + Hashes(s, p + 1) else 0
  }

  /** The token pattern at `p`. */
  function Opens(s: string, p: nat): (o: Option<Opening>)
    requires p < |s|
    ensures o.Some? && o.value.LineComment? ==> p + 2 <= o.value.end <= |s|
    ensures o.Some? && o.value.BlockComment? ==> p + 2 <= |s|
    ensures o.Some? && o.value.Literal? ==> p + 2 <= o.value.end <= |s|
    ensures o.Some? && o.value.Raw? ==> p + 2 + o.value.hashes <= |s|
  {
    if Has(s, p, "//") then Some(LineComment(LineEnd(s, p + 2)))
    else if Has(s, p, "/*") then Some(BlockComment)
    else if s[p] == '"' then
      var end := LiteralEnd(s, p + 1);
      if end.Some? then Some(Literal(end.value)) else None
    else if s[p] == 'r' && p + 1 + Hashes(s, p + 1) < |s| && s[p + 1 + Hashes(s, p + 1)] == '"' then
      Some(Raw(Hashes(s, p + 1)))
    else None
  }

  /** The end of a block comment that is `depth` deep at `p`. */
  function BlockEnd(s: string, p: nat, depth: nat): (e: Option<nat>)
    requires p <= |s|
    ensures e.Some? ==> p <= e.value <= |s|
    decreases |s| - p
  {
    if depth == 0 then Some(p)
    else if Has(s, p, "/*") then BlockEnd(s, p + 2, depth + 1)
    else if Has(s, p, "*/") then BlockEnd(s, p + 2, depth - 1)
    else if p == |s| then None
    else BlockEnd(s, p + 1, depth)
  }

  /** The first place of `text` from `p` on. */
  function Find(s: string, p: nat, text: string): (q: Option<nat>)
    requires p <= |s|
    ensures q.Some? ==> p <= q.value && Has(s, q.value, text)
    ensures q.Some? ==> forall k | p <= k < q.value :: !Has(s, k, text)
    ensures q.None? ==> forall k | p <= k <= |s| :: !Has(s, k, text)
    decreases |s| - p
  {
    if Has(s, p, text) then Some(p) else if p == |s| then None else Find(s, p + 1, text)
  }

  function Repeat(c: char, n: nat): (r: string)
    ensures |r| == n && forall k | 0 <= k < n :: r[k] == c
  {
    seq(n, i requires 0 <= i < n => c)
  }

  function TokenEnd(s: string, p: nat, o: Opening): (e: Ending)
    requires p < |s| && Opens(s, p) == Some(o)
    ensures e.At? ==> p < e.end <= |s|
  {
    match o
    case LineComment(end) => At(end)
    case Literal(end) => At(end)
    case BlockComment =>
      var end := BlockEnd(s, p + 2, 1);
      if end.Some? then At(end.value) else Missing(UnterminatedComment)
    case Raw(hashes) =>
      var closing := "\"" + Repeat('#', hashes);
      var finish := Find(s, p + 2 + hashes, closing);
      if finish.Some? then At(finish.value + |closing|) else Missing(UnterminatedRaw)
  }

  /** Where the next token starts. */
  function NextToken(s: string, p: nat): (q: nat)
    requires p <= |s|
    ensures p <= q <= |s| && (q < |s| ==> Opens(s, q).Some?)
    ensures forall k | p <= k < q :: Opens(s, k).None?
    decreases |s| - p
  {
    if p == |s| || Opens(s, p).Some? then p else NextToken(s, p + 1)
  }

  // ---- The tokens of a source ----------------------------------------------

  datatype Span = Span(start: nat, end: nat)

  datatype Lexed = Spans(spans: seq<Span>) | Failed(error: Error)

  function Lex(s: string, cursor: nat): Lexed
    requires cursor <= |s|
    decreases |s| - cursor
  {
    var start := NextToken(s, cursor);
    if start == |s| then Spans([])
    else
      match TokenEnd(s, start, Opens(s, start).value)
      case Missing(error) => Failed(error)
      case At(end) =>
        var rest := Lex(s, end);
        if rest.Failed? then rest else Spans([Span(start, end)] + rest.spans)
  }

  /**
    The tokens from `cursor` on, said without a scan: each span is a whole token,
    and no token starts between them.
   */
  ghost predicate AreTokens(s: string, cursor: nat, spans: seq<Span>)
    requires cursor <= |s|
    decreases |spans|
  {
    if spans == [] then forall k | cursor <= k < |s| :: Opens(s, k).None?
    else
      var t := spans[0];
      && cursor <= t.start < t.end <= |s|
      && (forall k | cursor <= k < t.start :: Opens(s, k).None?)
      && Opens(s, t.start).Some?
      && TokenEnd(s, t.start, Opens(s, t.start).value) == At(t.end)
      && AreTokens(s, t.end, spans[1..])
  }

  /** The scan finds exactly the tokens of a source, and fails exactly when it has none. */
  lemma {:induction false} LexFindsTokens(s: string, cursor: nat, spans: seq<Span>)
    requires cursor <= |s|
    ensures AreTokens(s, cursor, spans) <==> Lex(s, cursor) == Spans(spans)
    decreases |s| - cursor
  {
    var start := NextToken(s, cursor);
    if start < |s| {
      var e := TokenEnd(s, start, Opens(s, start).value);
      if AreTokens(s, cursor, spans) {
        assert spans != [];
        assert forall k | cursor <= k < start :: Opens(s, k).None?;
        assert Opens(s, spans[0].start).Some?;
      }
      if e.At? {
        if spans != [] && spans[0] == Span(start, e.end) {
          LexFindsTokens(s, e.end, spans[1..]);
          assert spans == [spans[0]] + spans[1..];
        }
        if Lex(s, cursor) == Spans(spans) {
          assert spans[1..] == Lex(s, e.end).spans;
        }
      }
    }
  }

  // ---- Masking -------------------------------------------------------------

  predicate Inside(spans: seq<Span>, i: nat) {
    exists k | 0 <= k < |spans| :: spans[k].start <= i < spans[k].end
  }

  datatype Masked = Code(text: string) | Rejected(error: Error)

  /** The masked text from `cursor` on. */
  function Mask(s: string, cursor: nat): (m: Masked)
    requires cursor <= |s|
    ensures m.Code? ==> |m.text| == |s| - cursor
    decreases |s| - cursor
  {
    var start := NextToken(s, cursor);
    if start == |s| then Code(s[cursor..])
    else
      match TokenEnd(s, start, Opens(s, start).value)
      case Missing(error) => Rejected(error)
      case At(end) =>
        var rest := Mask(s, end);
        if rest.Rejected? then rest else Code(s[cursor..start] + Repeat(' ', end - start) + rest.text)
  }

  /** `text` blanks the tokens from `cursor` on and keeps everything else. */
  ghost predicate MasksFrom(s: string, cursor: nat, spans: seq<Span>, text: string)
    requires cursor <= |s|
  {
    && |text| == |s| - cursor
    && forall i | cursor <= i < |s| :: text[i - cursor] == if Inside(spans, i) then ' ' else s[i]
  }

  lemma InsideFirst(spans: seq<Span>, i: nat)
    requires spans != []
    ensures Inside(spans, i) <==> (spans[0].start <= i < spans[0].end || Inside(spans[1..], i))
  {
    if Inside(spans[1..], i) {
      var k :| 0 <= k < |spans[1..]| && spans[1..][k].start <= i < spans[1..][k].end;
      assert spans[k + 1] == spans[1..][k];
    }
    if k :| 0 <= k < |spans| && spans[k].start <= i < spans[k].end {
      if k > 0 { assert spans[1..][k - 1] == spans[k]; }
    }
  }

  lemma {:induction false} TokensStartLater(s: string, cursor: nat, spans: seq<Span>, i: nat)
    requires cursor <= |s| && AreTokens(s, cursor, spans) && i < cursor
    ensures !Inside(spans, i)
    decreases |spans|
  {
    if spans != [] {
      TokensStartLater(s, spans[0].end, spans[1..], i);
      InsideFirst(spans, i);
    }
  }

  lemma {:induction false} MaskFailsAsLex(s: string, cursor: nat)
    requires cursor <= |s|
    ensures Mask(s, cursor).Code? <==> Lex(s, cursor).Spans?
    ensures Mask(s, cursor).Rejected? ==> Lex(s, cursor) == Failed(Mask(s, cursor).error)
    decreases |s| - cursor
  {
    var start := NextToken(s, cursor);
    if start < |s| {
      var e := TokenEnd(s, start, Opens(s, start).value);
      if e.At? { MaskFailsAsLex(s, e.end); }
    }
  }

  lemma ThreeParts(a: string, b: string, c: string, k: nat)
    requires k < |a| + |b| + |c|
    ensures (a + b + c)[k]
         == if k < |a| then a[k] else if k < |a| + |b| then b[k - |a|] else c[k - |a| - |b|]
  {
  }

  /** What the masked text holds at one index, when it is put together from three parts. */
  lemma MaskedInFrontAt(s: string, cursor: nat, t: Span, later: seq<Span>, rest: string, i: nat)
    requires cursor <= t.start < t.end <= |s| && cursor <= i < |s|
    requires i < t.end ==> !Inside(later, i)
    requires MasksFrom(s, t.end, later, rest)
    ensures (s[cursor..t.start] + Repeat(' ', t.end - t.start) + rest)[i - cursor]
         == if Inside([t] + later, i) then ' ' else s[i]
  {
    InsideFirst([t] + later, i);
    assert ([t] + later)[1..] == later;
    ThreeParts(s[cursor..t.start], Repeat(' ', t.end - t.start), rest, i - cursor);
  }

  /** One more token in front. */
  lemma MaskedInFront(s: string, cursor: nat, t: Span, later: seq<Span>, rest: string)
    requires cursor <= t.start < t.end <= |s|
    requires forall i | 0 <= i < t.end :: !Inside(later, i)
    requires MasksFrom(s, t.end, later, rest)
    ensures MasksFrom(s, cursor, [t] + later, s[cursor..t.start] + Repeat(' ', t.end - t.start) + rest)
  {
    forall i: nat | cursor <= i < |s|
      ensures (s[cursor..t.start] + Repeat(' ', t.end - t.start) + rest)[i - cursor]
           == if Inside([t] + later, i) then ' ' else s[i]
    {
      MaskedInFrontAt(s, cursor, t, later, rest, i);
    }
  }

  lemma LaterIsLater(s: string, cursor: nat, later: seq<Span>)
    requires cursor <= |s| && Lex(s, cursor) == Spans(later)
    ensures forall i | 0 <= i < cursor :: !Inside(later, i)
  {
    LexFindsTokens(s, cursor, later);
    forall i: nat | 0 <= i < cursor ensures !Inside(later, i) { TokensStartLater(s, cursor, later, i); }
  }

  lemma FirstToken(s: string, cursor: nat, start: nat, end: nat)
    requires cursor <= |s| && Mask(s, cursor).Code? && Lex(s, cursor).Spans?
    requires start == NextToken(s, cursor) < |s| && TokenEnd(s, start, Opens(s, start).value) == At(end)
    ensures end <= |s| && Mask(s, end).Code? && Lex(s, end).Spans?
    ensures Lex(s, cursor).spans == [Span(start, end)] + Lex(s, end).spans
    ensures Mask(s, cursor).text == s[cursor..start] + Repeat(' ', end - start) + Mask(s, end).text
  {
  }

  lemma OneMoreToken(s: string, cursor: nat, t: Span, later: seq<Span>, rest: string, spans: seq<Span>, text: string)
    requires cursor <= t.start < t.end <= |s|
    requires forall i | 0 <= i < t.end :: !Inside(later, i)
    requires MasksFrom(s, t.end, later, rest)
    requires spans == [t] + later && text == s[cursor..t.start] + Repeat(' ', t.end - t.start) + rest
    ensures MasksFrom(s, cursor, spans, text)
  {
    MaskedInFront(s, cursor, t, later, rest);
  }

  lemma NoMoreTokens(s: string, cursor: nat)
    requires cursor <= |s|
    ensures MasksFrom(s, cursor, [], s[cursor..])
  {
  }

  lemma {:induction false} MaskBlanksTokens(s: string, cursor: nat)
    requires cursor <= |s| && Mask(s, cursor).Code? && Lex(s, cursor).Spans?
    ensures MasksFrom(s, cursor, Lex(s, cursor).spans, Mask(s, cursor).text)
    decreases |s| - cursor
  {
    var start := NextToken(s, cursor);
    if start == |s| {
      NoMoreTokens(s, cursor);
    } else {
      var end := TokenEnd(s, start, Opens(s, start).value).end;
      FirstToken(s, cursor, start, end);
      MaskBlanksTokens(s, end);
      LaterIsLater(s, end, Lex(s, end).spans);
      OneMoreToken(s, cursor, Span(start, end), Lex(s, end).spans, Mask(s, end).text,
                   Lex(s, cursor).spans, Mask(s, cursor).text);
    }
  }

  /**
    A source is accepted exactly when it has tokens.  Then the masked text has the
    source's length, agrees with it outside its tokens, and is blank inside them.
   */
  lemma MaskedText(s: string, spans: seq<Span>)
    ensures Mask(s, 0).Code? && Lex(s, 0) == Spans(spans) <==> AreTokens(s, 0, spans)
    ensures AreTokens(s, 0, spans) ==> Mask(s, 0).Code? && MasksFrom(s, 0, spans, Mask(s, 0).text)
  {
    LexFindsTokens(s, 0, spans);
    MaskFailsAsLex(s, 0);
    if AreTokens(s, 0, spans) { MaskBlanksTokens(s, 0); }
  }

  /** Nothing inside a comment or a literal can matter: sources with the same tokens and the same code mask alike. */
  lemma OnlyCodeMatters(s: string, t: string, spans: seq<Span>)
    requires |s| == |t| && AreTokens(s, 0, spans) && AreTokens(t, 0, spans)
    requires forall i | 0 <= i < |s| && !Inside(spans, i) :: s[i] == t[i]
    ensures Mask(s, 0) == Mask(t, 0)
  {
    MaskedText(s, spans);
    MaskedText(t, spans);
    SameText(s, t, spans, Mask(s, 0).text, Mask(t, 0).text);
  }

  lemma SameText(s: string, t: string, spans: seq<Span>, a: string, b: string)
    requires |s| == |t| && MasksFrom(s, 0, spans, a) && MasksFrom(t, 0, spans, b)
    requires forall i | 0 <= i < |s| && !Inside(spans, i) :: s[i] == t[i]
    ensures a == b
  {
    forall i | 0 <= i < |a| ensures a[i] == b[i] {
      assert a[i - 0] == if Inside(spans, i) then ' ' else s[i];
      assert b[i - 0] == if Inside(spans, i) then ' ' else t[i];
    }
  }

  // ---- The loops -----------------------------------------------------------

  /** The inner loop: follows nested comments to the end of the outermost one. */
  method SkipBlockComment(source: string, start: nat) returns (end: Option<nat>)
    requires start <= |source|
    ensures end == BlockEnd(source, start, 1)
  {
    var at := start;
    var depth := 1;
    while depth > 0
      invariant start <= at <= |source|
      invariant BlockEnd(source, at, depth) == BlockEnd(source, start, 1)
      decreases |source| - at, depth
    {
      var p := at;
      while p < |source| && !Has(source, p, "/*") && !Has(source, p, "*/")
        invariant at <= p <= |source|
        invariant BlockEnd(source, p, depth) == BlockEnd(source, at, depth)
      {
        p := p + 1;
      }
      if p == |source| { return None; }
      depth := if Has(source, p, "/*") then depth + 1 else depth - 1;
      at := p + 2;
    }
    end := Some(at);
  }

  method EndOfToken(source: string, start: nat) returns (e: Ending)
    requires start < |source| && Opens(source, start).Some?
    ensures e == TokenEnd(source, start, Opens(source, start).value)
  {
    var opening := Opens(source, start).value;
    match opening
    case LineComment(end) => return At(end);
    case Literal(end) => return At(end);
    case BlockComment =>
      var end := SkipBlockComment(source, start + 2);
      return if end.Some? then At(end.value) else Missing(UnterminatedComment);
    case Raw(hashes) =>
      var closing := "\"" + Repeat('#', hashes);
      var finish := Find(source, start + 2 + hashes, closing);
      return if finish.Some? then At(finish.value + |closing|) else Missing(UnterminatedRaw);
  }

  function Prepended(masked: string, m: Masked): Masked {
    if m.Rejected? then m else Code(masked + m.text)
  }

  lemma FourParts(a: string, b: string, c: string, d: string)
    ensures a + (b + c + d) == (a + b + c) + d
  {
  }

  lemma MaskStep(s: string, cursor: nat, masked: string, start: nat, e: Ending)
    requires cursor <= |s| && start == NextToken(s, cursor) < |s|
    requires e == TokenEnd(s, start, Opens(s, start).value)
    ensures Prepended(masked, Mask(s, cursor))
         == if e.Missing? then Rejected(e.error)
            else Prepended(masked + s[cursor..start] + Repeat(' ', e.end - start), Mask(s, e.end))
  {
    if e.At? {
      var rest, blank := Mask(s, e.end), Repeat(' ', e.end - start);
      if rest.Code? {
        assert Mask(s, cursor) == Code(s[cursor..start] + blank + rest.text);
        FourParts(masked, s[cursor..start], blank, rest.text);
      } else {
        assert Mask(s, cursor) == rest;
      }
    }
  }

  /** The outer loop: `masked` collects the code and the blanks. */
  method MaskSource(source: string) returns (m: Masked)
    ensures m == Mask(source, 0)
  {
    var cursor := 0;
    var masked := "";
    var start := NextToken(source, cursor);
    while start < |source|
      invariant cursor <= |source| && start == NextToken(source, cursor)
      invariant Mask(source, 0) == Prepended(masked, Mask(source, cursor))
      decreases |source| - cursor
    {
      var e := EndOfToken(source, start);
      MaskStep(source, cursor, masked, start, e);
      masked := masked + source[cursor..start];
      if e.Missing? { return Rejected(e.error); }
      masked := masked + Repeat(' ', e.end - start);
      cursor := e.end;
      start := NextToken(source, cursor);
    }
    m := Code(masked + source[cursor..]);
  }
}
