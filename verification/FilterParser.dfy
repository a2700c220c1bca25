/**
 The filterset reader (scripts/mutants_scopes_check.py): a tokenizer that reads a
 predicate's argument as one raw matcher, and a recursive-descent parser that collects
 the leaves of a filter expression.
 */
module FilterParser {
  import opened Common

  /** The words of the language, and the regular-expression library's verdict on a regex body. */
  datatype Language = Language(
    predicates: set<string>, nullary: set<string>, wordOps: set<string>, binaryOps: set<string>, notOps: set<string>,
    compiles: string -> bool)

  /** nextest's filterset language. */
  function Nextest(compiles: string -> bool): Language {
    Language({"test", "package", "binary", "binary_id", "kind", "deps", "rdeps", "platform", "all", "none", "default"},
             {"all", "none", "default"}, {"or", "and", "not"}, {"|", "+", "or", "&", "and", "-"}, {"not", "!"}, compiles)
  }

  datatype Token = Op(op: string) | LParen | RParen | Pred(name: string) | Matcher(raw: string)

  /** Every refusal, whatever its message. */
  datatype FilterError = FilterError

  type Tokenized = Result<seq<Token>, FilterError>

  // ---------------------------------------------------------------- characters

  predicate IsSpace(c: char) {
    c == ' ' || '\t' <= c <= '\r' || '\U{1C}' <= c <= '\U{1F}'
  }

  predicate IsAlpha(c: char) {
    'a' <= c <= 'z' || 'A' <= c <= 'Z'
  }

  predicate IsWordChar(c: char) {
    IsAlpha(c) || '0' <= c <= '9' || c == '_'
  }

  predicate IsOpChar(c: char) {
    c in {'|', '&', '+', '-', '!'}
  }

  /** The end of the run of word characters at `i`. */
  function WordEnd(text: string, i: nat): (j: nat)
    requires i <= |text|
    ensures i <= j <= |text|
    decreases |text| - i
  {
    if i == |text| || !IsWordChar(text[i]) then i else WordEnd(text, i + 1)
  }

  function SpaceEnd(text: string, i: nat): (k: nat)
    requires i <= |text|
    ensures i <= k <= |text|
    decreases |text| - i
  {
    if i == |text| || !IsSpace(text[i]) then i else SpaceEnd(text, i + 1)
  }

  function StripLeft(s: string): string {
    if s != "" && IsSpace(s[0]) then StripLeft(s[1..]) else s
  }

  function StripRight(s: string): string {
    if s != "" && IsSpace(s[|s| - 1]) then StripRight(s[..|s| - 1]) else s
  }

  function Strip(s: string): string {
    StripRight(StripLeft(s))
  }

  // ---------------------------------------------------------------- tokens

  /** The argument scan: parenthesis depth, inside a regex or not, and whether only white space came before. */
  datatype Scan = Scan(depth: nat, inRegex: bool, blank: bool)

  const START: Scan := Scan(0, false, true)

  /** The scan behind one character, or None at the `)` that ends the argument. */
  function NextScan(c: char, st: Scan): Option<Scan> {
    if c == '\\' && st.inRegex then Some(st.(blank := false))
    else if c == '/' && (st.inRegex || st.blank) then Some(Scan(st.depth, !st.inRegex, false))
    else if !st.inRegex && c == '(' then Some(Scan(st.depth + 1, false, false))
    else if !st.inRegex && c == ')' then (if st.depth == 0 then None else Some(Scan(st.depth - 1, false, false)))
    else Some(st.(blank := st.blank && IsSpace(c)))
  }

  /** A backslash inside a regex takes the next character with it. */
  function Width(c: char, st: Scan): nat {
    if c == '\\' && st.inRegex then 2 else 1
  }

  /** Where the argument being scanned ends, if it does. */
  function ArgEnd(text: string, m: nat, st: Scan): (end: Option<nat>)
    ensures end.Some? ==> m <= end.value < |text|
    decreases |text| - m
  {
    if m >= |text| then None
    else
      match NextScan(text[m], st)
      case None => Some(m)
      case Some(next) => ArgEnd(text, m + Width(text[m], st), next)
  }

  function Then(front: seq<Token>, rest: Tokenized): Tokenized {
    match rest
    case Ok(more) => Ok(front + more)
    case Err(e) => Err(e)
  }

  /** The tokens of the word at `i`, and the place behind them. */
  function WordTokens(text: string, i: nat, lang: Language): (r: Option<(seq<Token>, nat)>)
    requires i < |text| && IsWordChar(text[i])
    ensures r.Some? ==> i < r.value.1 <= |text|
  {
    var j := WordEnd(text, i);
    var k := SpaceEnd(text, j);
    if text[i..j] in lang.wordOps then Some(([Op(text[i..j])], j))
    else if k < |text| && text[k] == '(' then
      match ArgEnd(text, k + 1, START)
      case None => None
      case Some(m) => Some(([Pred(text[i..j]), Matcher(Strip(text[k + 1..m]))], m + 1))
    else None
  }

  function TokenizeFrom(text: string, i: nat, lang: Language): Tokenized
    requires i <= |text|
    decreases |text| - i
  {
    if i == |text| then Ok([])
    else if IsSpace(text[i]) then TokenizeFrom(text, i + 1, lang)
    else if IsOpChar(text[i]) then Then([Op([text[i]])], TokenizeFrom(text, i + 1, lang))
    else if text[i] == '(' then Then([LParen], TokenizeFrom(text, i + 1, lang))
    else if text[i] == ')' then Then([RParen], TokenizeFrom(text, i + 1, lang))
    else if IsAlpha(text[i]) || text[i] == '_' then
      match WordTokens(text, i, lang)
      case None => Err(FilterError)
      case Some((toks, n)) => Then(toks, TokenizeFrom(text, n, lang))
    else Err(FilterError)
  }

  /** Blanks, tabs and line ends between tokens do not count. */
  lemma BlanksDoNotCount(text: string, i: nat, lang: Language)
    requires i < |text| && text[i] in {' ', '\t', '\n', '\r', '\U{0B}', '\U{0C}'}
    ensures TokenizeFrom(text, i, lang) == TokenizeFrom(text, i + 1, lang)
  {
  }

  function Tokenize(text: string, lang: Language): Tokenized {
    TokenizeFrom(text, 0, lang)
  }

  /** Every predicate token has its matcher right behind it. */
  ghost predicate Paired(toks: seq<Token>) {
    forall i :: 0 <= i < |toks| && toks[i].Pred? ==> i + 1 < |toks| && toks[i + 1].Matcher?
  }

  lemma {:induction false} TokensArePaired(text: string, i: nat, lang: Language)
    requires i <= |text|
    ensures TokenizeFrom(text, i, lang).Ok? ==> Paired(TokenizeFrom(text, i, lang).value)
    decreases |text| - i
  {
    if TokenizeFrom(text, i, lang).Ok? && i < |text| {
      if !IsSpace(text[i]) && (IsAlpha(text[i]) || text[i] == '_') {
        var (toks, n) := WordTokens(text, i, lang).value;
        TokensArePaired(text, n, lang);
        PairedBehind(toks, TokenizeFrom(text, n, lang).value);
      } else {
        TokensArePaired(text, i + 1, lang);
      }
    }
  }

  lemma PairedBehind(a: seq<Token>, b: seq<Token>)
    requires Paired(a) && Paired(b)
    ensures Paired(a + b)
  {
  }

  // ---------------------------------------------------------------- the tokenizer as it runs

  method ScanWord(text: string, i: nat) returns (j: nat)
    requires i <= |text|
    ensures j == WordEnd(text, i)
  {
    j := i;
    while j < |text| && IsWordChar(text[j])
      invariant i <= j <= |text| && WordEnd(text, i) == WordEnd(text, j)
    {
      j := j + 1;
    }
  }

  method ScanSpace(text: string, i: nat) returns (k: nat)
    requires i <= |text|
    ensures k == SpaceEnd(text, i)
  {
    k := i;
    while k < |text| && IsSpace(text[k])
      invariant i <= k <= |text| && SpaceEnd(text, i) == SpaceEnd(text, k)
    {
      k := k + 1;
    }
  }

  /** The argument loop, from just behind the opening parenthesis. */
  method ScanArgument(text: string, from: nat) returns (end: Option<nat>)
    ensures end == ArgEnd(text, from, START)
  {
    var m: nat, depth: nat, inRegex, blank := from, 0, false, true;
    while m < |text|
      invariant ArgEnd(text, from, START) == ArgEnd(text, m, Scan(depth, inRegex, blank))
      decreases |text| - m
    {
      ghost var st := Scan(depth, inRegex, blank);
      var ch := text[m];
      if ch == '\\' && inRegex {
        m, blank := m + 2, false;
        continue;
      }
      if ch == '/' && (inRegex || blank) {
        inRegex, blank := !inRegex, false;
      } else if !inRegex && ch == '(' {
        depth, blank := depth + 1, false;
      } else if !inRegex && ch == ')' {
        if depth == 0 {
          return Some(m);
        }
        depth, blank := depth - 1, false;
      } else {
        blank := blank && IsSpace(ch);
      }
      assert NextScan(ch, st) == Some(Scan(depth, inRegex, blank)) && Width(ch, st) == 1;
      m := m + 1;
    }
    return None;
  }

  method Tokens(text: string, lang: Language) returns (r: Tokenized)
    ensures r == Tokenize(text, lang)
  {
    var out: seq<Token> := [];
    var i: nat := 0;
    ThenNothing(Tokenize(text, lang));
    while i < |text|
      invariant i <= |text|
      invariant Tokenize(text, lang) == Then(out, TokenizeFrom(text, i, lang))
      decreases |text| - i
    {
      var c := text[i];
      if IsSpace(c) {
        i := i + 1;
      } else if IsOpChar(c) || c == '(' || c == ')' {
        var t := if c == '(' then LParen else if c == ')' then RParen else Op([c]);
        ThenMore(out, [t], TokenizeFrom(text, i + 1, lang));
        out, i := out + [t], i + 1;
      } else if IsAlpha(c) || c == '_' {
        var word := ReadWord(text, i, lang);
        if word.None? {
          return Err(FilterError);
        }
        ThenMore(out, word.value.0, TokenizeFrom(text, word.value.1, lang));
        out, i := out + word.value.0, word.value.1;
      } else {
        return Err(FilterError);
      }
    }
    assert out + [] == out;
    return Ok(out);
  }

  /** One word: an operator, or a predicate with its argument; and the place behind it. */
  method ReadWord(text: string, i: nat, lang: Language) returns (r: Option<(seq<Token>, nat)>)
    requires i < |text| && (IsAlpha(text[i]) || text[i] == '_')
    ensures r == WordTokens(text, i, lang)
  {
    var j := ScanWord(text, i);
    var word := text[i..j];
    var k := ScanSpace(text, j);
    if word in lang.wordOps {
      return Some(([Op(word)], j));
    }
    if k < |text| && text[k] == '(' {
      var end := ScanArgument(text, k + 1);
      if end.None? {
        return None;
      }
      return Some(([Pred(word), Matcher(Strip(text[k + 1..end.value]))], end.value + 1));
    }
    return None;
  }

  lemma ThenNothing(rest: Tokenized)
    ensures Then([], rest) == rest
  {
    assert rest.Ok? ==> [] + rest.value == rest.value;
  }

  lemma ThenMore(a: seq<Token>, b: seq<Token>, rest: Tokenized)
    ensures Then(a, Then(b, rest)) == Then(a + b, rest)
  {
    assert rest.Ok? ==> a + (b + rest.value) == a + b + rest.value;
  }

  // ---------------------------------------------------------------- matchers and leaves

  datatype MatcherKind = NoMatcher | Regex | Exact | Contains | Glob

  datatype Found = Found(pred: string, kind: MatcherKind, value: string)

  function MatcherOf(pred: string, raw: string, lang: Language): Option<(MatcherKind, string)> {
    if pred in lang.nullary then (if raw != "" then None else Some((NoMatcher, "")))
    else if raw == "" then None
    else if raw[0] == '/' then
      if |raw| < 3 || raw[|raw| - 1] != '/' || !lang.compiles(raw[1..|raw| - 1]) then None
      else Some((Regex, raw[1..|raw| - 1]))
    else if raw[0] in {'=', '~', '#'} then
      if |raw| == 1 then None
      else Some((if raw[0] == '=' then Exact else if raw[0] == '~' then Contains else Glob, raw[1..]))
    else Some((Contains, raw))
  }

  /** What a matcher text means, by its first character; only the nullary predicates take none. */
  lemma MatchersMean(pred: string, v: string, lang: Language)
    ensures pred in lang.nullary ==> MatcherOf(pred, v, lang) == if v == "" then Some((NoMatcher, "")) else None
    ensures pred !in lang.nullary ==>
              && MatcherOf(pred, "", lang) == None
              && MatcherOf(pred, "=" + v, lang) == (if v == "" then None else Some((Exact, v)))
              && MatcherOf(pred, "~" + v, lang) == (if v == "" then None else Some((Contains, v)))
              && MatcherOf(pred, "#" + v, lang) == (if v == "" then None else Some((Glob, v)))
              && MatcherOf(pred, "/" + v + "/", lang) == (if v != "" && lang.compiles(v) then Some((Regex, v)) else None)
              && (v == "" || v[|v| - 1] != '/' ==> MatcherOf(pred, "/" + v, lang) == None)
              && (v != "" && v[0] !in {'/', '=', '~', '#'} ==> MatcherOf(pred, v, lang) == Some((Contains, v)))
  {
    var raw := "/" + v + "/";
    assert raw[1..|raw| - 1] == v && ("=" + v)[1..] == v && ("~" + v)[1..] == v && ("#" + v)[1..] == v;
  }

  /** Of nextest's predicates, these three take no matcher and every other one needs one. */
  lemma NextestMatchers(pred: string, compiles: string -> bool)
    requires pred in Nextest(compiles).predicates
    ensures MatcherOf(pred, "", Nextest(compiles)).Some? <==> pred == "all" || pred == "none" || pred == "default"
  {
  }

  // ---------------------------------------------------------------- the grammar

  /** A term is negated, parenthesised, or a predicate; an expression is a chain of terms. */
  datatype Term = Not(op: string, arg: Term) | Group(inner: Expr) | Leaf(pred: string, raw: string)
  datatype Expr = Last(term: Term) | Chain(term: Term, op: string, rest: Expr)

  predicate GoodTerm(t: Term, lang: Language) {
    match t
    case Not(op, arg) => op in lang.notOps && GoodTerm(arg, lang)
    case Group(inner) => GoodExpr(inner, lang)
    case Leaf(pred, raw) => pred in lang.predicates && MatcherOf(pred, raw, lang).Some?
  }

  predicate GoodExpr(e: Expr, lang: Language) {
    match e
    case Last(t) => GoodTerm(t, lang)
    case Chain(t, op, rest) => GoodTerm(t, lang) && op in lang.binaryOps && GoodExpr(rest, lang)
  }

  function FlatTerm(t: Term): seq<Token> {
    match t
    case Not(op, arg) => [Op(op)] + FlatTerm(arg)
    case Group(inner) => [LParen] + FlatExpr(inner) + [RParen]
    case Leaf(pred, raw) => [Pred(pred), Matcher(raw)]
  }

  function FlatExpr(e: Expr): seq<Token> {
    match e
    case Last(t) => FlatTerm(t)
    case Chain(t, op, rest) => FlatTerm(t) + [Op(op)] + FlatExpr(rest)
  }

  function LeavesOfTerm(t: Term, lang: Language): seq<Found>
    requires GoodTerm(t, lang)
  {
    match t
    case Not(_, arg) => LeavesOfTerm(arg, lang)
    case Group(inner) => LeavesOfExpr(inner, lang)
    case Leaf(pred, raw) => [FoundAt(pred, raw, lang)]
  }

  function LeavesOfExpr(e: Expr, lang: Language): seq<Found>
    requires GoodExpr(e, lang)
  {
    match e
    case Last(t) => LeavesOfTerm(t, lang)
    case Chain(t, _, rest) => LeavesOfTerm(t, lang) + LeavesOfExpr(rest, lang)
  }

  function FoundAt(pred: string, raw: string, lang: Language): Found
    requires MatcherOf(pred, raw, lang).Some?
  {
    var m := MatcherOf(pred, raw, lang).value;
    Found(pred, m.0, m.1)
  }

  // ---------------------------------------------------------------- the parser's specification

  predicate BinaryAt(toks: seq<Token>, p: nat, lang: Language) {
    p < |toks| && toks[p].Op? && toks[p].op in lang.binaryOps
  }

  function ParseTerm(toks: seq<Token>, pos: nat, lang: Language): (r: Option<(Term, nat)>)
    requires Paired(toks) && pos <= |toks|
    ensures r.Some? ==> pos < r.value.1 <= |toks| && GoodTerm(r.value.0, lang)
    decreases |toks| - pos, 0
  {
    if pos == |toks| then None
    else
      match toks[pos]
      case Op(op) =>
        if op !in lang.notOps then None
        else (match ParseTerm(toks, pos + 1, lang) case Some((t, p)) => Some((Not(op, t), p)) case None => None)
      case LParen => (
        match ParseExpr(toks, pos + 1, lang)
        case Some((e, p)) => if p < |toks| && toks[p].RParen? then Some((Group(e), p + 1)) else None
        case None => None)
      case Pred(name) =>
        if name in lang.predicates && MatcherOf(name, toks[pos + 1].raw, lang).Some?
        then Some((Leaf(name, toks[pos + 1].raw), pos + 2)) else None
      case _ => None
  }

  function ParseExpr(toks: seq<Token>, pos: nat, lang: Language): (r: Option<(Expr, nat)>)
    requires Paired(toks) && pos <= |toks|
    ensures r.Some? ==> pos < r.value.1 <= |toks| && GoodExpr(r.value.0, lang)
    decreases |toks| - pos, 1
  {
    match ParseTerm(toks, pos, lang)
    case None => None
    case Some((t, p)) =>
      if !BinaryAt(toks, p, lang) then Some((Last(t), p))
      else
        match ParseExpr(toks, p + 1, lang)
        case None => None
        case Some((e, q)) => Some((Chain(t, toks[p].op, e), q))
  }

  /** What reading a term reports: its leaves and the place behind it. */
  function TermReport(toks: seq<Token>, pos: nat, lang: Language): (r: Option<(seq<Found>, nat)>)
    requires Paired(toks) && pos <= |toks|
    ensures r.Some? ==> pos < r.value.1 <= |toks|
  {
    match ParseTerm(toks, pos, lang)
    case Some((t, p)) => Some((LeavesOfTerm(t, lang), p))
    case None => None
  }

  function ExprReport(toks: seq<Token>, pos: nat, lang: Language): (r: Option<(seq<Found>, nat)>)
    requires Paired(toks) && pos <= |toks|
    ensures r.Some? ==> pos < r.value.1 <= |toks|
  {
    match ParseExpr(toks, pos, lang)
    case Some((e, p)) => Some((LeavesOfExpr(e, lang), p))
    case None => None
  }

  /** What the rest of an expression reports, from just behind one of its terms. */
  function Tail(toks: seq<Token>, p: nat, lang: Language): Option<(seq<Found>, nat)>
    requires Paired(toks) && p <= |toks|
  {
    if BinaryAt(toks, p, lang) then ExprReport(toks, p + 1, lang) else Some(([], p))
  }

  function Behind(front: seq<Found>, r: Option<(seq<Found>, nat)>): Option<(seq<Found>, nat)> {
    match r
    case Some((more, p)) => Some((front + more, p))
    case None => None
  }

  lemma ExprIsTermAndTail(toks: seq<Token>, pos: nat, lang: Language)
    requires Paired(toks) && pos <= |toks|
    ensures ExprReport(toks, pos, lang) ==
            match TermReport(toks, pos, lang)
            case None => None
            case Some((leaves, p)) => Behind(leaves, Tail(toks, p, lang))
  {
    if ParseTerm(toks, pos, lang).Some? {
      var (t, p) := ParseTerm(toks, pos, lang).value;
      assert LeavesOfTerm(t, lang) + [] == LeavesOfTerm(t, lang);
    }
  }

  /** What reading a term amounts to, token by token. */
  lemma TermByToken(toks: seq<Token>, pos: nat, lang: Language)
    requires Paired(toks) && pos < |toks|
    ensures TermReport(toks, pos, lang) ==
            match toks[pos]
            case Op(op) => if op in lang.notOps then TermReport(toks, pos + 1, lang) else None
            case LParen => (
              match ExprReport(toks, pos + 1, lang)
              case Some((leaves, p)) => if p < |toks| && toks[p].RParen? then Some((leaves, p + 1)) else None
              case None => None)
            case Pred(name) =>
              if name in lang.predicates && MatcherOf(name, toks[pos + 1].raw, lang).Some?
              then Some(([FoundAt(name, toks[pos + 1].raw, lang)], pos + 2)) else None
            case _ => None
  {
  }

  // ---------------------------------------------------------------- the parser as it runs

  class Parser {
    const toks: seq<Token>
    const lang: Language
    var pos: nat
    var leaves: seq<Found>

    constructor (toks: seq<Token>, lang: Language)
      ensures this.toks == toks && this.lang == lang && pos == 0 && leaves == []
    {
      this.toks, this.lang, pos, leaves := toks, lang, 0, [];
    }

    method ReadExpr() returns (ok: bool)
      requires Paired(toks) && pos <= |toks|
      modifies this
      ensures ok <==> ExprReport(toks, old(pos), lang).Some?
      ensures ok ==> old(pos) < pos <= |toks| && Behind(old(leaves), ExprReport(toks, old(pos), lang)) == Some((leaves, pos))
      decreases |toks| - pos, 1
    {
      ghost var goal := Behind(old(leaves), ExprReport(toks, pos, lang));
      ExprIsTermAndTail(toks, pos, lang);
      ok := ReadTerm();
      if !ok {
        return;
      }
      ghost var term := TermReport(toks, old(pos), lang).value.0;
      BehindTwice(old(leaves), term, Tail(toks, pos, lang));
      while BinaryAt(toks, pos, lang)
        invariant old(pos) < pos <= |toks|
        invariant goal == Behind(leaves, Tail(toks, pos, lang))
        decreases |toks| - pos
      {
        ghost var was, at := leaves, pos + 1;
        pos := pos + 1;
        ExprIsTermAndTail(toks, pos, lang);
        ok := ReadTerm();
        if !ok {
          return;
        }
        term := TermReport(toks, at, lang).value.0;
        BehindTwice(was, term, Tail(toks, pos, lang));
      }
      assert leaves + [] == leaves;
    }

    method ReadTerm() returns (ok: bool)
      requires Paired(toks) && pos <= |toks|
      modifies this
      ensures ok <==> TermReport(toks, old(pos), lang).Some?
      ensures ok ==> old(pos) < pos <= |toks| && Behind(old(leaves), TermReport(toks, old(pos), lang)) == Some((leaves, pos))
      decreases |toks| - pos, 0
    {
      if pos == |toks| {
        return false;
      }
      TermByToken(toks, pos, lang);
      match toks[pos] {
        case Op(op) =>
          if op !in lang.notOps {
            return false;
          }
          pos := pos + 1;
          ok := ReadTerm();
        case LParen =>
          pos := pos + 1;
          ok := ReadExpr();
          if ok {
            if pos == |toks| || !toks[pos].RParen? {
              return false;
            }
            pos := pos + 1;
          }
        case Pred(name) =>
          if name !in lang.predicates {
            return false;
          }
          pos := pos + 1;
          var m := MatcherOf(name, toks[pos].raw, lang);
          if m.None? {
            return false;
          }
          pos := pos + 1;
          leaves := leaves + [Found(name, m.value.0, m.value.1)];
          return true;
        case _ =>
          return false;
      }
    }
  }

  lemma BehindTwice(a: seq<Found>, b: seq<Found>, r: Option<(seq<Found>, nat)>)
    ensures Behind(a, Behind(b, r)) == Behind(a + b, r)
  {
    if r.Some? {
      assert a + (b + r.value.0) == a + b + r.value.0;
    }
  }

  /** `parse_filter`'s answer to a token list: the leaves, or a refusal. */
  function ParsedTokens(toks: seq<Token>, lang: Language): Result<seq<Found>, FilterError>
    requires Paired(toks)
  {
    match ExprReport(toks, 0, lang)
    case Some((leaves, p)) => if p == |toks| then Ok(leaves) else Err(FilterError)
    case None => Err(FilterError)
  }

  function Parsed(text: string, lang: Language): Result<seq<Found>, FilterError> {
    match Tokenize(text, lang)
    case Err(e) => Err(e)
    case Ok(toks) =>
      TokensArePaired(text, 0, lang);
      ParsedTokens(toks, lang)
  }

  method ParseTokens(toks: seq<Token>, lang: Language) returns (r: Result<seq<Found>, FilterError>)
    requires Paired(toks)
    ensures r == ParsedTokens(toks, lang)
  {
    if toks == [] {
      return Err(FilterError);
    }
    var p := new Parser(toks, lang);
    var ok := p.ReadExpr();
    if !ok || p.pos != |toks| {
      return Err(FilterError);
    }
    assert [] + ExprReport(toks, 0, lang).value.0 == ExprReport(toks, 0, lang).value.0;
    return Ok(p.leaves);
  }

  method ParseFilter(text: string, lang: Language) returns (r: Result<seq<Found>, FilterError>)
    ensures r == Parsed(text, lang)
  {
    var toks := Tokens(text, lang);
    if toks.Err? {
      return Err(toks.error);
    }
    TokensArePaired(text, 0, lang);
    r := ParseTokens(toks.value, lang);
  }
}
