/** Which matchers survive printing: regexes, balanced texts, and everything the tokenizer itself produces. */
module FilterMatchers {
  import opened Common
  import opened FilterParser
  import opened FilterProofs

  // ---------------------------------------------------------------- stripping

  lemma {:induction false} StripLeftIs(s: string) returns (k: nat)
    ensures k <= |s| && StripLeft(s) == s[k..] && (forall i :: 0 <= i < k ==> IsSpace(s[i])) && (k < |s| ==> !IsSpace(s[k]))
  {
    k := 0;
    if s != "" && IsSpace(s[0]) {
      var n := StripLeftIs(s[1..]);
      k := n + 1;
      assert s[1..][n..] == s[k..];
      forall i | 0 <= i < k ensures IsSpace(s[i]) {
        assert i > 0 ==> s[1..][i - 1] == s[i];
      }
    }
  }

  lemma {:induction false} StripRightIs(s: string) returns (n: nat)
    ensures n <= |s| && StripRight(s) == s[..n] && (forall i :: n <= i < |s| ==> IsSpace(s[i])) && (n > 0 ==> !IsSpace(s[n - 1]))
  {
    n := |s|;
    if s != "" && IsSpace(s[|s| - 1]) {
      var init := s[..|s| - 1];
      n := StripRightIs(init);
      assert init[..n] == s[..n];
      forall i | n <= i < |s| ensures IsSpace(s[i]) {
        assert i < |init| ==> init[i] == s[i];
      }
    }
  }

  ghost predicate Tight(raw: string) {
    raw == "" || (!IsSpace(raw[0]) && !IsSpace(raw[|raw| - 1]))
  }

  lemma TightStrips(raw: string)
    requires Tight(raw)
    ensures Strip(raw) == raw
  {
  }

  ghost predicate Spaces(text: string, from: nat, to: nat)
    requires to <= |text|
  {
    forall i :: from <= i < to ==> IsSpace(text[i])
  }

  /** A stripped slice is a tight slice with white space around it. */
  lemma StripIs(text: string, from: nat, m: nat) returns (a: nat, b: nat)
    requires from <= m <= |text|
    ensures from <= a <= b <= m && Strip(text[from..m]) == text[a..b] && Tight(text[a..b])
    ensures Spaces(text, from, a) && Spaces(text, b, m)
  {
    var s := text[from..m];
    var k := StripLeftIs(s);
    var n := StripRightIs(s[k..]);
    a, b := from + k, from + k + n;
    assert s[k..][..n] == text[a..b];
    forall i | from <= i < a ensures IsSpace(text[i]) { assert s[i - from] == text[i]; }
    forall i | b <= i < m ensures IsSpace(text[i]) { assert s[k..][i - a] == text[i]; }
    if n > 0 {
      assert s[k..][n - 1] == text[b - 1] && s[k] == text[a];
    }
  }

  // ---------------------------------------------------------------- matchers that print

  /** A regex body: pairs behind a backslash, and characters that are neither slash nor backslash. */
  predicate RegexBody(b: string, p: nat)
    requires p <= |b|
    decreases |b| - p
  {
    p == |b| || if b[p] == '\\' then p + 1 < |b| && RegexBody(b, p + 2) else b[p] != '/' && RegexBody(b, p + 1)
  }

  lemma {:induction false} RegexScans(body: string, p: nat)
    requires p <= |body| && RegexBody(body, p)
    ensures ArgEnd("/" + body + "/" + ")", p + 1, Scan(0, true, false)) == Some(|body| + 2)
    decreases |body| - p
  {
    var text := "/" + body + "/" + ")";
    if p == |body| {
      assert text[p + 1] == '/' && text[p + 2] == ')';
      assert NextScan('/', Scan(0, true, false)) == Some(Scan(0, false, false));
      assert ArgEnd(text, p + 2, Scan(0, false, false)) == Some(p + 2);
    } else {
      assert text[p + 1] == body[p];
      assert NextScan(body[p], Scan(0, true, false)) == Some(Scan(0, true, false));
      RegexScans(body, p + Width(body[p], Scan(0, true, false)));
    }
  }

  /** Parentheses and escaped slashes inside a regex do not end its predicate. */
  lemma RegexIsScannable(body: string)
    requires RegexBody(body, 0)
    ensures Scannable("/" + body + "/")
  {
    var raw := "/" + body + "/";
    RegexScans(body, 0);
    assert raw + ")" == "/" + body + "/" + ")";
    assert (raw + ")")[0] == '/' && NextScan('/', START) == Some(Scan(0, true, false));
    assert raw[|raw| - 1] == '/' && raw[0] == '/';
    TightStrips(raw);
  }

  predicate Balanced(s: string, p: nat, depth: nat)
    requires p <= |s|
    decreases |s| - p
  {
    if p == |s| then depth == 0
    else if s[p] == '(' then Balanced(s, p + 1, depth + 1)
    else if s[p] == ')' then depth > 0 && Balanced(s, p + 1, depth - 1)
    else Balanced(s, p + 1, depth)
  }

  lemma {:induction false} BalancedScans(raw: string, p: nat, depth: nat)
    requires p <= |raw| && Balanced(raw, p, depth)
    ensures ArgEnd(raw + ")", p, Scan(depth, false, false)) == Some(|raw|)
    decreases |raw| - p
  {
    if p < |raw| {
      assert (raw + ")")[p] == raw[p];
      BalancedScans(raw, p + 1, if raw[p] == '(' then depth + 1 else if raw[p] == ')' then depth - 1 else depth);
    }
  }

  /** Any other matcher prints when its parentheses balance. */
  lemma BalancedIsScannable(raw: string)
    requires Tight(raw) && Balanced(raw, 0, 0) && (raw != "" ==> raw[0] != '/')
    ensures Scannable(raw)
  {
    TightStrips(raw);
    if raw != "" {
      assert (raw + ")")[0] == raw[0];
      BalancedScans(raw, 1, if raw[0] == '(' then 1 else 0);
    }
  }

  // ---------------------------------------------------------------- the tokenizer's own matchers

  /** Only white space to go: the scan is outside a regex and outside parentheses. */
  lemma {:induction false} EndsOutside(text: string, p: nat, st: Scan, m: nat)
    requires p <= m < |text| && ArgEnd(text, p, st) == Some(m) && Spaces(text, p, m)
    ensures st.depth == 0 && !st.inRegex
    decreases m - p
  {
    if p < m {
      assert IsSpace(text[p]);
      EndsOutside(text, p + 1, st, m);
    }
  }

  lemma {:induction false} LeadingSpaces(text: string, p: nat, a: nat)
    requires p <= a <= |text| && Spaces(text, p, a)
    ensures ArgEnd(text, p, START) == ArgEnd(text, a, START)
    decreases a - p
  {
    if p < a {
      assert IsSpace(text[p]) && NextScan(text[p], START) == Some(START);
      LeadingSpaces(text, p + 1, a);
    }
  }

  /** Cutting the white space before the end, and all before `a`, moves the end with it. */
  lemma {:induction false} CutScans(text: string, a: nat, p: nat, b: nat, m: nat, st: Scan)
    requires a <= p <= b <= m < |text| && ArgEnd(text, p, st) == Some(m) && Spaces(text, b, m)
    ensures ArgEnd(text[a..b] + ")", p - a, st) == Some(b - a)
    decreases m - p
  {
    var part := text[a..b] + ")";
    if p == b {
      EndsOutside(text, p, st, m);
      assert part[b - a] == ')';
    } else {
      assert part[p - a] == text[p];
      var w := Width(text[p], st);
      var next := NextScan(text[p], st).value;
      if p + w <= b {
        CutScans(text, a, p + w, b, m, next);
      } else {
        EndsOutside(text, p + w, next, m);
      }
    }
  }

  lemma MatcherIsScannable(text: string, from: nat, m: nat)
    requires from <= m && ArgEnd(text, from, START) == Some(m)
    ensures Scannable(Strip(text[from..m]))
  {
    var a, b := StripIs(text, from, m);
    LeadingSpaces(text, from, a);
    CutScans(text, a, a, b, m, START);
    TightStrips(text[a..b]);
  }

  ghost predicate AllScannable(toks: seq<Token>) {
    forall t <- toks :: t.Matcher? ==> Scannable(t.raw)
  }

  lemma {:induction false} TokensAreScannable(text: string, i: nat, lang: Language)
    requires i <= |text|
    ensures TokenizeFrom(text, i, lang).Ok? ==> AllScannable(TokenizeFrom(text, i, lang).value)
    decreases |text| - i
  {
    if TokenizeFrom(text, i, lang).Ok? && i < |text| {
      if !IsSpace(text[i]) && (IsAlpha(text[i]) || text[i] == '_') {
        var (toks, n) := WordTokens(text, i, lang).value;
        TokensAreScannable(text, n, lang);
        WordIsScannable(text, i, lang);
      } else {
        TokensAreScannable(text, i + 1, lang);
      }
    }
  }

  lemma WordIsScannable(text: string, i: nat, lang: Language)
    requires i < |text| && IsWordChar(text[i]) && WordTokens(text, i, lang).Some?
    ensures AllScannable(WordTokens(text, i, lang).value.0)
  {
    var j := WordEnd(text, i);
    var k := SpaceEnd(text, j);
    if text[i..j] !in lang.wordOps {
      MatcherIsScannable(text, k + 1, ArgEnd(text, k + 1, START).value);
    }
  }

  lemma {:induction false} TermPrints(t: Term)
    requires AllScannable(FlatTerm(t))
    ensures PrintableTerm(t)
    decreases t, 0
  {
    match t
    case Not(op, arg) => TermPrints(arg);
    case Group(inner) => ExprPrints(inner);
    case Leaf(pred, raw) => assert Matcher(raw) in FlatTerm(t);
  }

  lemma {:induction false} ExprPrints(e: Expr)
    requires AllScannable(FlatExpr(e))
    ensures PrintableExpr(e)
    decreases e, 1
  {
    match e
    case Last(t) => TermPrints(t);
    case Chain(t, op, rest) =>
      TermPrints(t);
      ExprPrints(rest);
  }

  /** Any accepted text, however spaced, has a printed form that parses to the same leaves. */
  lemma AcceptedTextReprints(text: string, leaves: seq<Found>, lang: Language) returns (e: Expr)
    requires Regular(lang) && Parsed(text, lang) == Ok(leaves)
    ensures GoodExpr(e, lang) && PrintableExpr(e) && leaves == LeavesOfExpr(e, lang)
    ensures Tokenize(PrintExpr(e), lang) == Tokenize(text, lang) && Parsed(PrintExpr(e), lang) == Ok(leaves)
  {
    var toks := Tokenize(text, lang).value;
    TokensArePaired(text, 0, lang);
    AcceptsIffDerivable(toks, leaves, lang);
    e :| Derives(e, toks, lang) && leaves == LeavesOfExpr(e, lang);
    TokensAreScannable(text, 0, lang);
    ExprPrints(e);
    PrintThenParse(e, lang);
  }
}
