/**
  The two patterns of the contract scanner, character by character.
 */
module ScannerForms {
  import opened Options
  import opened RustLexer
  import opened ContractScanner

  predicate Blank(c: char) { '\t' <= c <= '\r' || c == ' ' || '\U{001C}' <= c <= '\U{001F}' }

  predicate Lower(c: char) { 'a' <= c <= 'z' || c == '_' }

  predicate LowerOrDigit(c: char) { 'a' <= c <= 'z' || c == '_' || '0' <= c <= '9' }

  predicate WordChar(c: char) { 'a' <= c <= 'z' || 'A' <= c <= 'Z' || '0' <= c <= '9' || c == '_' }

  /** White space from `p` up to `q`, and no further. */
  ghost predicate Gap(s: string, p: nat, q: nat) {
    p <= q <= |s| && (forall k | p <= k < q :: Blank(s[k])) && (q < |s| ==> !Blank(s[q]))
  }

  lemma {:induction false} GapIff(s: string, p: nat, q: nat)
    requires p <= |s|
    ensures SkipSpaces(s, p) == q <==> Gap(s, p, q)
    decreases |s| - p
  {
    if p < |s| && Blank(s[p]) && p < q { GapIff(s, p + 1, q); }
  }

  /** A name from `b` up to `end`, and no further. */
  ghost predicate NameFrom(s: string, b: nat, end: nat) {
    && b < end <= |s| && Lower(s[b])
    && (forall k | b <= k < end :: LowerOrDigit(s[k]))
    && (end < |s| ==> !LowerOrDigit(s[end]))
  }

  lemma {:induction false} PartsIff(s: string, p: nat, q: nat)
    requires p <= |s|
    ensures NameEnd(s, p) == q <==>
              p <= q <= |s| && (forall k | p <= k < q :: LowerOrDigit(s[k])) && (q < |s| ==> !LowerOrDigit(s[q]))
    decreases |s| - p
  {
    if p < |s| && LowerOrDigit(s[p]) && p < q { PartsIff(s, p + 1, q); }
  }

  /** `pub`, a gap, `fn`, a gap and a name, where no word goes on. */
  ghost predicate PubFnForm(s: string, p: nat, a: nat, b: nat, end: nat) {
    && (p > 0 && p <= |s| ==> !WordChar(s[p - 1]))
    && Has(s, p, "pub") && p + 3 < a && Gap(s, p + 3, a)
    && Has(s, a, "fn") && a + 2 < b && Gap(s, a + 2, b)
    && NameFrom(s, b, end)
  }

  lemma PubFnHasForm(s: string, p: nat) returns (a: nat, b: nat)
    requires p <= |s| && PubFn(s, p).Some?
    ensures var m := PubFn(s, p).value; PubFnForm(s, p, a, b, m.end) && m.name == s[b..m.end]
  {
    a := SkipSpaces(s, p + 3);
    GapIff(s, p + 3, a);
    b := SkipSpaces(s, a + 2);
    GapIff(s, a + 2, b);
    PartsIff(s, b, NameEnd(s, b));
  }

  lemma FormIsPubFn(s: string, p: nat, a: nat, b: nat, end: nat)
    requires p <= |s| && PubFnForm(s, p, a, b, end)
    ensures PubFn(s, p) == Some(Match(s[b..end], end))
  {
    GapIff(s, p + 3, a);
    GapIff(s, a + 2, b);
    PartsIff(s, b, end);
  }

  /** The scanner sees a function exactly where this form stands, and gives it its name. */
  lemma PubFnIff(s: string, p: nat, name: string, end: nat)
    requires p <= |s|
    ensures PubFn(s, p) == Some(Match(name, end)) <==>
              exists a: nat, b: nat :: PubFnForm(s, p, a, b, end) && name == s[b..end]
  {
    if PubFn(s, p) == Some(Match(name, end)) { var a, b := PubFnHasForm(s, p); }
    if a: nat, b: nat :| PubFnForm(s, p, a, b, end) && name == s[b..end] { FormIsPubFn(s, p, a, b, end); }
  }

  /** `#[contractimpl]` and `impl`, gaps anywhere between, and the first brace after that. */
  ghost predicate HeaderForm(s: string, p: nat, a: nat, b: nat, c: nat, open: nat) {
    && Has(s, p, "#[") && Gap(s, p + 2, a)
    && Has(s, a, "contractimpl") && Gap(s, a + 12, b)
    && Has(s, b, "]") && Gap(s, b + 1, c)
    && ImplForm(s, c, open)
  }

  ghost predicate ImplForm(s: string, c: nat, open: nat) {
    && Has(s, c, "impl") && (c + 4 < |s| ==> !WordChar(s[c + 4]))
    && c + 4 <= open < |s| && s[open] == '{' && forall k | c + 4 <= k < open :: s[k] != '{'
  }

  lemma {:induction false} OpenIff(s: string, p: nat, q: nat)
    requires p <= |s|
    ensures OpenBrace(s, p) == q < |s| <==> p <= q < |s| && s[q] == '{' && forall k | p <= k < q :: s[k] != '{'
    decreases |s| - p
  {
    if p < |s| && s[p] != '{' && p < q { OpenIff(s, p + 1, q); }
  }

  lemma ImplIff(s: string, c: nat, open: nat)
    requires c <= |s|
    ensures ImplBrace(s, c) == Some(open + 1) <==> ImplForm(s, c, open)
  {
    if Has(s, c, "impl") { OpenIff(s, c + 4, open); }
  }

  lemma AttributeForms(s: string, p: nat, a: nat, b: nat, c: nat)
    requires p <= |s| && Has(s, p, "#[") && Gap(s, p + 2, a) && Has(s, a, "contractimpl") && Gap(s, a + 12, b)
    requires Has(s, b, "]") && Gap(s, b + 1, c)
    ensures Attribute(s, p) == Some(c)
  {
    GapIff(s, p + 2, a);
    GapIff(s, a + 12, b);
    GapIff(s, b + 1, c);
  }

  lemma AttributeHasForm(s: string, p: nat) returns (a: nat, b: nat)
    requires p <= |s| && Attribute(s, p).Some?
    ensures Has(s, p, "#[") && Gap(s, p + 2, a) && Has(s, a, "contractimpl") && Gap(s, a + 12, b)
    ensures Has(s, b, "]") && Gap(s, b + 1, Attribute(s, p).value)
  {
    a := SkipSpaces(s, p + 2);
    GapIff(s, p + 2, a);
    b := SkipSpaces(s, a + 12);
    GapIff(s, a + 12, b);
    GapIff(s, b + 1, Attribute(s, p).value);
  }

  /** The scanner enters a block exactly at the brace of such a header. */
  lemma HeaderIff(s: string, p: nat, open: nat)
    requires p <= |s|
    ensures Header(s, p) == Some(open + 1) <==> exists a: nat, b: nat, c: nat :: HeaderForm(s, p, a, b, c, open)
  {
    if Header(s, p) == Some(open + 1) {
      var a, b := AttributeHasForm(s, p);
      var c := Attribute(s, p).value;
      ImplIff(s, c, open);
      assert HeaderForm(s, p, a, b, c, open);
    }
    if a: nat, b: nat, c: nat :| HeaderForm(s, p, a, b, c, open) {
      AttributeForms(s, p, a, b, c);
      ImplIff(s, c, open);
    }
  }
}
