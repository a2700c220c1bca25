/** The parser accepts exactly the grammar, and reads back every expression it can print. */
module FilterProofs {
  import opened Common
  import opened FilterParser

  // ---------------------------------------------------------------- the parser is the grammar

  lemma {:induction false} TermSound(toks: seq<Token>, pos: nat, lang: Language)
    requires Paired(toks) && pos <= |toks| && ParseTerm(toks, pos, lang).Some?
    ensures var (t, p) := ParseTerm(toks, pos, lang).value; toks[pos..p] == FlatTerm(t)
    decreases |toks| - pos, 0
  {
    match toks[pos]
    case Op(_) =>
      TermSound(toks, pos + 1, lang);
      SliceHead(toks, pos, ParseTerm(toks, pos + 1, lang).value.1);
    case LParen =>
      ExprSound(toks, pos + 1, lang);
      var p := ParseExpr(toks, pos + 1, lang).value.1;
      SliceHead(toks, pos, p + 1);
      SliceLast(toks, pos + 1, p);
      assert toks[pos..p + 1] == [LParen] + toks[pos + 1..p] + [RParen];
    case Pred(_) =>
      SliceHead(toks, pos, pos + 2);
      SliceHead(toks, pos + 1, pos + 2);
  }

  lemma SliceHead(toks: seq<Token>, pos: nat, p: nat)
    requires pos < p <= |toks|
    ensures toks[pos..p] == [toks[pos]] + toks[pos + 1..p]
  {
  }

  lemma SliceLast(toks: seq<Token>, pos: nat, p: nat)
    requires pos <= p < |toks|
    ensures toks[pos..p + 1] == toks[pos..p] + [toks[p]]
  {
  }

  lemma {:induction false} ExprSound(toks: seq<Token>, pos: nat, lang: Language)
    requires Paired(toks) && pos <= |toks| && ParseExpr(toks, pos, lang).Some?
    ensures var (e, p) := ParseExpr(toks, pos, lang).value; toks[pos..p] == FlatExpr(e)
    decreases |toks| - pos, 1
  {
    TermSound(toks, pos, lang);
    var (t, p) := ParseTerm(toks, pos, lang).value;
    if BinaryAt(toks, p, lang) {
      ExprSound(toks, p + 1, lang);
      var (e, q) := ParseExpr(toks, p + 1, lang).value;
      assert toks[pos..q] == toks[pos..p] + [toks[p]] + toks[p + 1..q];
    }
  }

  /** The tokens `part` stand at `pos`. */
  ghost predicate Stands(toks: seq<Token>, pos: nat, part: seq<Token>) {
    pos + |part| <= |toks| && toks[pos..pos + |part|] == part
  }

  lemma StandsSplit(toks: seq<Token>, pos: nat, a: seq<Token>, b: seq<Token>)
    requires Stands(toks, pos, a + b)
    ensures Stands(toks, pos, a) && Stands(toks, pos + |a|, b)
    ensures a != [] ==> toks[pos] == a[0]
  {
    var all := toks[pos..pos + |a + b|];
    assert all[..|a|] == a && all[|a|..] == b;
    assert toks[pos..pos + |a|] == all[..|a|] && toks[pos + |a|..pos + |a| + |b|] == all[|a|..];
    assert a != [] ==> all[0] == a[0];
  }

  /** `pt` and `pe` are the parser on one token list; names for it that do not unfold. */
  ghost predicate Runs(pt: nat -> Option<(Term, nat)>, pe: nat -> Option<(Expr, nat)>, toks: seq<Token>, lang: Language) {
    && Paired(toks)
    && (forall k: nat {:trigger ParseTerm(toks, k, lang)} :: k <= |toks| ==> pt(k) == ParseTerm(toks, k, lang))
    && (forall k: nat {:trigger ParseExpr(toks, k, lang)} :: k <= |toks| ==> pe(k) == ParseExpr(toks, k, lang))
  }

  lemma NotParses(pt: nat -> Option<(Term, nat)>, pe: nat -> Option<(Expr, nat)>, toks: seq<Token>, pos: nat, op: string, t: Term, p: nat,
                  lang: Language)
    requires Runs(pt, pe, toks, lang) && pos < |toks| && toks[pos] == Op(op) && op in lang.notOps && pt(pos + 1) == Some((t, p))
    ensures pt(pos) == Some((Not(op, t), p))
  {
    assert ParseTerm(toks, pos + 1, lang) == Some((t, p));
    assert ParseTerm(toks, pos, lang) == Some((Not(op, t), p));
  }

  lemma GroupParses(pt: nat -> Option<(Term, nat)>, pe: nat -> Option<(Expr, nat)>, toks: seq<Token>, pos: nat, e: Expr, p: nat,
                    lang: Language)
    requires Runs(pt, pe, toks, lang) && pos < |toks| && toks[pos] == LParen && p < |toks| && toks[p] == RParen
    requires pe(pos + 1) == Some((e, p))
    ensures pt(pos) == Some((Group(e), p + 1))
  {
    assert ParseExpr(toks, pos + 1, lang) == Some((e, p));
    assert ParseTerm(toks, pos, lang) == Some((Group(e), p + 1));
  }

  lemma LeafParses(pt: nat -> Option<(Term, nat)>, pe: nat -> Option<(Expr, nat)>, toks: seq<Token>, pos: nat, pred: string, raw: string,
                   lang: Language)
    requires Runs(pt, pe, toks, lang) && pos + 1 < |toks| && toks[pos] == Pred(pred) && toks[pos + 1] == Matcher(raw)
    requires GoodTerm(Leaf(pred, raw), lang)
    ensures pt(pos) == Some((Leaf(pred, raw), pos + 2))
  {
    assert ParseTerm(toks, pos, lang) == Some((Leaf(pred, raw), pos + 2));
  }

  lemma LastParses(pt: nat -> Option<(Term, nat)>, pe: nat -> Option<(Expr, nat)>, toks: seq<Token>, pos: nat, t: Term, p: nat, lang: Language)
    requires Runs(pt, pe, toks, lang) && pos <= |toks| && !BinaryAt(toks, p, lang) && pt(pos) == Some((t, p))
    ensures pe(pos) == Some((Last(t), p))
  {
    assert ParseTerm(toks, pos, lang) == Some((t, p));
    assert ParseExpr(toks, pos, lang) == Some((Last(t), p));
  }

  lemma ChainParses(pt: nat -> Option<(Term, nat)>, pe: nat -> Option<(Expr, nat)>, toks: seq<Token>, pos: nat, t: Term, p: nat, op: string,
                    e: Expr, q: nat, lang: Language)
    requires Runs(pt, pe, toks, lang) && pos <= p < |toks| && toks[p] == Op(op) && op in lang.binaryOps
    requires pt(pos) == Some((t, p)) && pe(p + 1) == Some((e, q))
    ensures pe(pos) == Some((Chain(t, op, e), q))
  {
    assert ParseTerm(toks, pos, lang) == Some((t, p)) && ParseExpr(toks, p + 1, lang) == Some((e, q));
    assert ParseExpr(toks, pos, lang) == Some((Chain(t, op, e), q));
  }

  lemma NotStands(toks: seq<Token>, pos: nat, head: Token, rest: seq<Token>)
    requires Stands(toks, pos, [head] + rest)
    ensures pos < |toks| && toks[pos] == head && Stands(toks, pos + 1, rest)
  {
    StandsSplit(toks, pos, [head], rest);
  }

  lemma GroupStands(toks: seq<Token>, pos: nat, inner: seq<Token>)
    requires Stands(toks, pos, [LParen] + inner + [RParen])
    ensures pos + |inner| + 1 < |toks| && toks[pos] == LParen && Stands(toks, pos + 1, inner) && toks[pos + 1 + |inner|] == RParen
  {
    StandsSplit(toks, pos, [LParen] + inner, [RParen]);
    StandsSplit(toks, pos, [LParen], inner);
    NotStands(toks, pos + 1 + |inner|, RParen, []);
  }

  lemma ChainStands(toks: seq<Token>, pos: nat, a: seq<Token>, op: Token, b: seq<Token>)
    requires Stands(toks, pos, a + [op] + b)
    ensures pos + |a| < |toks| && Stands(toks, pos, a) && toks[pos + |a|] == op && Stands(toks, pos + |a| + 1, b)
  {
    assert a + [op] + b == a + ([op] + b);
    StandsSplit(toks, pos, a, [op] + b);
    NotStands(toks, pos + |a|, op, b);
  }

  lemma {:induction false} TermComplete(pt: nat -> Option<(Term, nat)>, pe: nat -> Option<(Expr, nat)>, toks: seq<Token>, pos: nat, t: Term,
                                        lang: Language)
    requires Runs(pt, pe, toks, lang) && GoodTerm(t, lang) && Stands(toks, pos, FlatTerm(t))
    ensures pt(pos) == Some((t, pos + |FlatTerm(t)|))
    decreases t, 0
  {
    var end := pos + |FlatTerm(t)|;
    match t
    case Not(op, arg) =>
      NotStands(toks, pos, Op(op), FlatTerm(arg));
      TermComplete(pt, pe, toks, pos + 1, arg, lang);
      NotParses(pt, pe, toks, pos, op, arg, end, lang);
    case Group(inner) =>
      GroupStands(toks, pos, FlatExpr(inner));
      assert end == pos + 1 + |FlatExpr(inner)| + 1;
      ExprComplete(pt, pe, toks, pos + 1, inner, lang);
      GroupParses(pt, pe, toks, pos, inner, end - 1, lang);
    case Leaf(pred, raw) =>
      ChainStands(toks, pos, [], Pred(pred), [Matcher(raw)]);
      NotStands(toks, pos + 1, Matcher(raw), []);
      LeafParses(pt, pe, toks, pos, pred, raw, lang);
  }

  lemma {:induction false} ExprComplete(pt: nat -> Option<(Term, nat)>, pe: nat -> Option<(Expr, nat)>, toks: seq<Token>, pos: nat, e: Expr,
                                        lang: Language)
    requires Runs(pt, pe, toks, lang) && GoodExpr(e, lang)
    requires Stands(toks, pos, FlatExpr(e)) && !BinaryAt(toks, pos + |FlatExpr(e)|, lang)
    ensures pe(pos) == Some((e, pos + |FlatExpr(e)|))
    decreases e, 1
  {
    match e
    case Last(t) =>
      TermComplete(pt, pe, toks, pos, t, lang);
      LastParses(pt, pe, toks, pos, t, pos + |FlatTerm(t)|, lang);
    case Chain(t, op, rest) =>
      var p := pos + |FlatTerm(t)|;
      ChainStands(toks, pos, FlatTerm(t), Op(op), FlatExpr(rest));
      FlatChain(t, op, rest);
      TermComplete(pt, pe, toks, pos, t, lang);
      ExprComplete(pt, pe, toks, p + 1, rest, lang);
      ChainParses(pt, pe, toks, pos, t, p, op, rest, p + 1 + |FlatExpr(rest)|, lang);
  }

  lemma FlatChain(t: Term, op: string, rest: Expr)
    ensures |FlatExpr(Chain(t, op, rest))| == |FlatTerm(t)| + 1 + |FlatExpr(rest)|
  {
  }

  /** `e` derives the token list. */
  ghost predicate Derives(e: Expr, toks: seq<Token>, lang: Language) {
    GoodExpr(e, lang) && FlatExpr(e) == toks
  }

  lemma DerivedIsParsed(toks: seq<Token>, e: Expr, lang: Language)
    requires Paired(toks) && Derives(e, toks, lang)
    ensures ParseExpr(toks, 0, lang) == Some((e, |toks|)) && ParsedTokens(toks, lang) == Ok(LeavesOfExpr(e, lang))
  {
    assert toks[0..0 + |FlatExpr(e)|] == toks;
    var pt := (k: nat) => if k <= |toks| then ParseTerm(toks, k, lang) else None;
    var pe := (k: nat) => if k <= |toks| then ParseExpr(toks, k, lang) else None;
    ExprComplete(pt, pe, toks, 0, e, lang);
    assert pe(0) == ParseExpr(toks, 0, lang);
  }

  /** The parser accepts a token list exactly when the grammar derives it, and reports that derivation's leaves. */
  lemma AcceptsIffDerivable(toks: seq<Token>, leaves: seq<Found>, lang: Language)
    requires Paired(toks)
    ensures ParsedTokens(toks, lang) == Ok(leaves) <==> exists e :: Derives(e, toks, lang) && leaves == LeavesOfExpr(e, lang)
  {
    if ParsedTokens(toks, lang) == Ok(leaves) {
      var (e, p) := ParseExpr(toks, 0, lang).value;
      ExprSound(toks, 0, lang);
      assert toks[0..p] == toks;
      assert Derives(e, toks, lang);
    }
    if e :| Derives(e, toks, lang) && leaves == LeavesOfExpr(e, lang) {
      DerivedIsParsed(toks, e, lang);
    }
  }

  /** The grammar is unambiguous. */
  lemma DerivationIsUnique(toks: seq<Token>, a: Expr, b: Expr, lang: Language)
    requires Paired(toks) && Derives(a, toks, lang) && Derives(b, toks, lang)
    ensures a == b
  {
    DerivedIsParsed(toks, a, lang);
    DerivedIsParsed(toks, b, lang);
  }

  // ---------------------------------------------------------------- printing

  function PrintTerm(t: Term): string {
    match t
    case Not(op, arg) => op + " " + PrintTerm(arg)
    case Group(inner) => "(" + PrintExpr(inner) + ")"
    case Leaf(pred, raw) => pred + "(" + raw + ")"
  }

  function PrintExpr(e: Expr): string {
    match e
    case Last(t) => PrintTerm(t)
    case Chain(t, op, rest) => PrintTerm(t) + " " + op + " " + PrintExpr(rest)
  }

  ghost predicate IsWord(w: string) {
    w != "" && (IsAlpha(w[0]) || w[0] == '_') && forall c <- w :: IsWordChar(c)
  }

  ghost predicate IsOperator(op: string, lang: Language) {
    (op in lang.wordOps && IsWord(op)) || (|op| == 1 && IsOpChar(op[0]))
  }

  /** A language whose operators and predicates the tokenizer can tell apart. */
  ghost predicate Regular(lang: Language) {
    && (forall op <- lang.binaryOps + lang.notOps :: IsOperator(op, lang))
    && (forall p <- lang.predicates :: IsWord(p) && p !in lang.wordOps)
  }

  lemma NextestIsRegular(compiles: string -> bool)
    ensures Regular(Nextest(compiles))
  {
    var lang := Nextest(compiles);
    NextestPredicatesAreWords();
    assert IsWord("or") && IsWord("and") && IsWord("not");
    forall op <- lang.binaryOps + lang.notOps ensures IsOperator(op, lang) {
      assert op in {"or", "and", "not"} || op in {"|", "+", "&", "-", "!"};
    }
  }

  lemma NextestPredicatesAreWords()
    ensures IsWord("test") && IsWord("package") && IsWord("binary") && IsWord("binary_id") && IsWord("kind") && IsWord("deps")
    ensures IsWord("rdeps") && IsWord("platform") && IsWord("all") && IsWord("none") && IsWord("default")
  {
  }

  /** A matcher that stands between parentheses as itself. */
  predicate Scannable(raw: string) {
    ArgEnd(raw + ")", 0, START) == Some(|raw|) && Strip(raw) == raw
  }

  predicate PrintableTerm(t: Term) {
    match t
    case Not(_, arg) => PrintableTerm(arg)
    case Group(inner) => PrintableExpr(inner)
    case Leaf(_, raw) => Scannable(raw)
  }

  predicate PrintableExpr(e: Expr) {
    match e
    case Last(t) => PrintableTerm(t)
    case Chain(t, _, rest) => PrintableTerm(t) && PrintableExpr(rest)
  }

  // ---------------------------------------------------------------- tokenizing what was printed

  ghost predicate At(text: string, i: nat, part: string) {
    i + |part| <= |text| && text[i..i + |part|] == part
  }

  lemma AtSplit(text: string, i: nat, a: string, b: string)
    requires At(text, i, a + b)
    ensures At(text, i, a) && At(text, i + |a|, b)
  {
    var all := text[i..i + |a + b|];
    assert all[..|a|] == a && all[|a|..] == b;
    assert text[i..i + |a|] == all[..|a|] && text[i + |a|..i + |a| + |b|] == all[|a|..];
  }

  lemma AtChar(text: string, i: nat, part: string, k: nat)
    requires At(text, i, part) && k < |part|
    ensures text[i + k] == part[k]
  {
  }

  lemma {:induction false} WordEndsAt(text: string, i: nat, n: nat)
    requires i <= n <= |text| && (forall k :: i <= k < n ==> IsWordChar(text[k])) && (n < |text| ==> !IsWordChar(text[n]))
    ensures WordEnd(text, i) == n
    decreases n - i
  {
    if i < n {
      WordEndsAt(text, i + 1, n);
    }
  }

  lemma WordStands(text: string, i: nat, w: string)
    requires IsWord(w) && At(text, i, w) && i + |w| < |text| && !IsWordChar(text[i + |w|])
    ensures WordEnd(text, i) == i + |w| && text[i..i + |w|] == w && (IsAlpha(text[i]) || text[i] == '_')
  {
    forall k | i <= k < i + |w| ensures IsWordChar(text[k]) {
      AtChar(text, i, w, k - i);
      assert w[k - i] in w;
    }
    AtChar(text, i, w, 0);
    WordEndsAt(text, i, i + |w|);
  }

  lemma OperatorTokens(text: string, i: nat, op: string, lang: Language)
    requires IsOperator(op, lang) && At(text, i, op + " ")
    ensures i + |op| + 1 <= |text|
    ensures TokenizeFrom(text, i, lang) == Then([Op(op)], TokenizeFrom(text, i + |op| + 1, lang))
  {
    AtSplit(text, i, op, " ");
    AtChar(text, i + |op|, " ", 0);
    assert TokenizeFrom(text, i + |op|, lang) == TokenizeFrom(text, i + |op| + 1, lang);
    if |op| == 1 && IsOpChar(op[0]) {
      AtChar(text, i, op, 0);
      assert op == [text[i]];
    } else {
      WordStands(text, i, op);
    }
  }

  /** Scanning an argument depends on the argument alone. */
  lemma {:induction false} ArgEndMoves(text: string, base: nat, part: string, p: nat, st: Scan)
    requires At(text, base, part) && ArgEnd(part, p, st).Some?
    ensures ArgEnd(text, base + p, st) == Some(base + ArgEnd(part, p, st).value)
    decreases |part| - p
  {
    AtChar(text, base, part, p);
    var next := NextScan(part[p], st);
    if next.Some? {
      ArgEndMoves(text, base, part, p + Width(part[p], st), next.value);
    }
  }

  lemma LeafWord(text: string, i: nat, pred: string, raw: string, lang: Language)
    requires IsWord(pred) && pred !in lang.wordOps && Scannable(raw) && At(text, i, pred + "(" + raw + ")")
    ensures i + |pred| + |raw| + 2 <= |text| && (IsAlpha(text[i]) || text[i] == '_')
    ensures WordTokens(text, i, lang) == Some(([Pred(pred), Matcher(raw)], i + |pred| + |raw| + 2))
  {
    var k := i + |pred|;
    LeafParts(text, i, pred, raw);
    WordStands(text, i, pred);
    ArgumentStands(text, k, raw);
    WordMade(text, i, k, k + 1 + |raw|, pred, raw, lang);
  }

  lemma LeafParts(text: string, i: nat, pred: string, raw: string)
    requires At(text, i, pred + "(" + raw + ")")
    ensures At(text, i, pred) && i + |pred| + |raw| + 2 <= |text| && text[i + |pred|] == '(' && At(text, i + |pred| + 1, raw + ")")
  {
    assert pred + "(" + raw + ")" == pred + ("(" + (raw + ")"));
    AtSplit(text, i, pred, "(" + (raw + ")"));
    AtSplit(text, i + |pred|, "(", raw + ")");
    AtChar(text, i + |pred|, "(", 0);
  }

  lemma WordMade(text: string, i: nat, k: nat, m: nat, pred: string, raw: string, lang: Language)
    requires i < k < m < |text| && IsWordChar(text[i]) && WordEnd(text, i) == k && SpaceEnd(text, k) == k && text[k] == '('
    requires text[i..k] == pred && pred !in lang.wordOps && ArgEnd(text, k + 1, START) == Some(m)
    requires text[k + 1..m] == raw && Strip(raw) == raw
    ensures WordTokens(text, i, lang) == Some(([Pred(pred), Matcher(raw)], m + 1))
  {
  }

  lemma ArgumentStands(text: string, k: nat, raw: string)
    requires Scannable(raw) && k < |text| && text[k] == '(' && At(text, k + 1, raw + ")")
    ensures SpaceEnd(text, k) == k && ArgEnd(text, k + 1, START) == Some(k + 1 + |raw|)
    ensures text[k + 1..k + 1 + |raw|] == raw
  {
    ArgEndMoves(text, k + 1, raw + ")", 0, START);
    AtSplit(text, k + 1, raw, ")");
  }

  lemma WordStep(text: string, i: nat, toks: seq<Token>, n: nat, lang: Language)
    requires i < |text| && (IsAlpha(text[i]) || text[i] == '_') && WordTokens(text, i, lang) == Some((toks, n))
    ensures TokenizeFrom(text, i, lang) == Then(toks, TokenizeFrom(text, n, lang))
  {
  }

  lemma ParenTokens(text: string, i: nat, lang: Language)
    requires i < |text|
    ensures text[i] == '(' ==> TokenizeFrom(text, i, lang) == Then([LParen], TokenizeFrom(text, i + 1, lang))
    ensures text[i] == ')' ==> TokenizeFrom(text, i, lang) == Then([RParen], TokenizeFrom(text, i + 1, lang))
    ensures text[i] == ' ' ==> TokenizeFrom(text, i, lang) == TokenizeFrom(text, i + 1, lang)
  {
  }

  lemma ThenThrice(a: seq<Token>, b: seq<Token>, c: seq<Token>, rest: Tokenized)
    ensures Then(a, Then(b, Then(c, rest))) == Then(a + b + c, rest)
  {
    ThenMore(b, c, rest);
    ThenMore(a, b + c, rest);
    assert a + (b + c) == a + b + c;
  }

  /** `tk` is the tokenizer on one text; a name for it that does not unfold. */
  ghost predicate Follows(tk: nat -> Tokenized, text: string, lang: Language) {
    forall k: nat {:trigger TokenizeFrom(text, k, lang)} :: k <= |text| ==> tk(k) == TokenizeFrom(text, k, lang)
  }

  lemma OperatorRead(tk: nat -> Tokenized, text: string, i: nat, op: string, lang: Language)
    requires Follows(tk, text, lang) && IsOperator(op, lang) && At(text, i, op + " ")
    ensures tk(i) == Then([Op(op)], tk(i + |op| + 1))
  {
    OperatorTokens(text, i, op, lang);
  }

  lemma ParenRead(tk: nat -> Tokenized, text: string, i: nat, lang: Language)
    requires Follows(tk, text, lang) && i < |text|
    ensures text[i] == '(' ==> tk(i) == Then([LParen], tk(i + 1))
    ensures text[i] == ')' ==> tk(i) == Then([RParen], tk(i + 1))
    ensures text[i] == ' ' ==> tk(i) == tk(i + 1)
  {
    ParenTokens(text, i, lang);
  }

  lemma LeafRead(tk: nat -> Tokenized, text: string, i: nat, pred: string, raw: string, lang: Language)
    requires Follows(tk, text, lang) && IsWord(pred) && pred !in lang.wordOps && Scannable(raw) && At(text, i, pred + "(" + raw + ")")
    ensures tk(i) == Then([Pred(pred), Matcher(raw)], tk(i + |pred| + |raw| + 2))
  {
    LeafWord(text, i, pred, raw, lang);
    WordStep(text, i, [Pred(pred), Matcher(raw)], i + |pred| + |raw| + 2, lang);
  }

  lemma GroupParts(text: string, i: nat, inner: string)
    requires At(text, i, "(" + inner + ")")
    ensures i + |inner| + 2 <= |text| && text[i] == '(' && At(text, i + 1, inner) && text[i + 1 + |inner|] == ')'
  {
    AtSplit(text, i, "(" + inner, ")");
    AtSplit(text, i, "(", inner);
    AtChar(text, i, "(", 0);
    AtChar(text, i + 1 + |inner|, ")", 0);
  }

  lemma ChainParts(text: string, i: nat, a: string, op: string, b: string)
    requires At(text, i, a + " " + op + " " + b)
    ensures i + |a| + |op| + 2 + |b| <= |text| && At(text, i, a) && text[i + |a|] == ' '
    ensures At(text, i + |a| + 1, op + " ") && At(text, i + |a| + |op| + 2, b)
  {
    assert a + " " + op + " " + b == a + (" " + ((op + " ") + b));
    AtSplit(text, i, a, " " + ((op + " ") + b));
    AtSplit(text, i + |a|, " ", (op + " ") + b);
    AtSplit(text, i + |a| + 1, op + " ", b);
    AtChar(text, i + |a|, " ", 0);
  }

  lemma {:induction false} TermTokens(tk: nat -> Tokenized, text: string, i: nat, t: Term, lang: Language)
    requires Follows(tk, text, lang) && Regular(lang) && GoodTerm(t, lang) && PrintableTerm(t) && At(text, i, PrintTerm(t))
    ensures tk(i) == Then(FlatTerm(t), tk(i + |PrintTerm(t)|))
    decreases t, 0
  {
    var end := i + |PrintTerm(t)|;
    match t
    case Not(op, arg) =>
      AtSplit(text, i, op + " ", PrintTerm(arg));
      OperatorRead(tk, text, i, op, lang);
      TermTokens(tk, text, i + |op| + 1, arg, lang);
      ThenMore([Op(op)], FlatTerm(arg), tk(end));
    case Group(inner) =>
      GroupParts(text, i, PrintExpr(inner));
      ParenRead(tk, text, i, lang);
      ParenRead(tk, text, end - 1, lang);
      ExprTokens(tk, text, i + 1, inner, lang);
      GroupJoins(tk, i, end, FlatExpr(inner), FlatTerm(t));
    case Leaf(pred, raw) => LeafRead(tk, text, i, pred, raw, lang);
  }

  lemma GroupJoins(tk: nat -> Tokenized, i: nat, end: nat, inner: seq<Token>, all: seq<Token>)
    requires i + 1 < end && tk(i) == Then([LParen], tk(i + 1)) && tk(i + 1) == Then(inner, tk(end - 1)) && tk(end - 1) == Then([RParen], tk(end))
    requires all == [LParen] + inner + [RParen]
    ensures tk(i) == Then(all, tk(end))
  {
    ThenThrice([LParen], inner, [RParen], tk(end));
  }

  lemma {:induction false} ExprTokens(tk: nat -> Tokenized, text: string, i: nat, e: Expr, lang: Language)
    requires Follows(tk, text, lang) && Regular(lang) && GoodExpr(e, lang) && PrintableExpr(e) && At(text, i, PrintExpr(e))
    ensures tk(i) == Then(FlatExpr(e), tk(i + |PrintExpr(e)|))
    decreases e, 1
  {
    match e
    case Last(t) => TermTokens(tk, text, i, t, lang);
    case Chain(t, op, rest) =>
      var front, back := PrintTerm(t), PrintExpr(rest);
      assert PrintExpr(e) == front + " " + op + " " + back;
      assert op in lang.binaryOps + lang.notOps;
      ChainParts(text, i, front, op, back);
      TermTokens(tk, text, i, t, lang);
      ExprTokens(tk, text, i + |front| + |op| + 2, rest, lang);
      ChainRead(tk, text, i, front, FlatTerm(t), op, back, FlatExpr(rest), lang);
  }

  lemma ChainRead(tk: nat -> Tokenized, text: string, i: nat, front: string, a: seq<Token>, op: string, back: string, b: seq<Token>,
                  lang: Language)
    requires Follows(tk, text, lang) && IsOperator(op, lang) && At(text, i, front + " " + op + " " + back)
    requires tk(i) == Then(a, tk(i + |front|))
    requires tk(i + |front| + |op| + 2) == Then(b, tk(i + |front| + |op| + 2 + |back|))
    ensures tk(i) == Then(a + [Op(op)] + b, tk(i + |front + " " + op + " " + back|))
  {
    var n := i + |front|;
    ChainParts(text, i, front, op, back);
    ParenRead(tk, text, n, lang);
    OperatorRead(tk, text, n + 1, op, lang);
    ChainJoins(tk, i, n, n + |op| + 2, n + |op| + 2 + |back|, a, op, b, a + [Op(op)] + b);
  }

  lemma ChainJoins(tk: nat -> Tokenized, i: nat, n: nat, m: nat, end: nat, a: seq<Token>, op: string, b: seq<Token>, all: seq<Token>)
    requires tk(i) == Then(a, tk(n)) && tk(n) == tk(n + 1) == Then([Op(op)], tk(m)) && tk(m) == Then(b, tk(end))
    requires all == a + [Op(op)] + b
    ensures tk(i) == Then(all, tk(end))
  {
    ThenThrice(a, [Op(op)], b, tk(end));
  }

  lemma {:induction false} FlatTermPaired(t: Term)
    ensures Paired(FlatTerm(t))
    decreases t, 0
  {
    match t
    case Not(op, arg) =>
      FlatTermPaired(arg);
      PairedBehind([Op(op)], FlatTerm(arg));
    case Group(inner) =>
      FlatExprPaired(inner);
      PairedBehind([LParen], FlatExpr(inner));
      PairedBehind([LParen] + FlatExpr(inner), [RParen]);
    case Leaf(_, _) =>
  }

  lemma {:induction false} FlatExprPaired(e: Expr)
    ensures Paired(FlatExpr(e))
    decreases e, 1
  {
    match e
    case Last(t) => FlatTermPaired(t);
    case Chain(t, op, rest) =>
      FlatTermPaired(t);
      FlatExprPaired(rest);
      PairedBehind(FlatTerm(t), [Op(op)]);
      PairedBehind(FlatTerm(t) + [Op(op)], FlatExpr(rest));
  }

  /** The printed form of any expression parses back to its leaves, in order. */
  lemma PrintThenParse(e: Expr, lang: Language)
    requires Regular(lang) && GoodExpr(e, lang) && PrintableExpr(e)
    ensures Tokenize(PrintExpr(e), lang) == Ok(FlatExpr(e))
    ensures Parsed(PrintExpr(e), lang) == Ok(LeavesOfExpr(e, lang))
  {
    var text := PrintExpr(e);
    assert text[0..0 + |text|] == text;
    var tk := (k: nat) => if k <= |text| then TokenizeFrom(text, k, lang) else Err(FilterError);
    ExprTokens(tk, text, 0, e, lang);
    assert tk(|text|) == Ok([]);
    assert FlatExpr(e) + [] == FlatExpr(e);
    FlatExprPaired(e);
    DerivedIsParsed(FlatExpr(e), e, lang);
  }
}
