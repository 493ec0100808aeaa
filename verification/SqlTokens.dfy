/** A lexer for the SQL the builders emit, and the theorem that it undoes the spelling of tokens. */
module SqlTokens {
  import opened Wrappers
  import opened Text
  import opened Catalog

  datatype Token =
    | Word(text: string)      // keyword, function, type or bare identifier
    | Quoted(name: string)    // "identifier"
    | Param(index: nat)       // $n
    | Sym(text: string)       // punctuation and operators

  /** The length of the longest operator or punctuation sign that `s` starts with. */
  function SymbolLength(s: string): (n: nat)
    ensures n <= |s| && n <= 2
  {
    if s == "" then 0
    else if s[0] in "(),.*=" then 1
    else if s[0] == '<' then if |s| > 1 && (s[1] == '>' || s[1] == '=') then 2 else 1
    else if s[0] == '>' then if |s| > 1 && s[1] == '=' then 2 else 1
    else if s[0] == ':' && |s| > 1 && s[1] == ':' then 2
    else 0
  }

  predicate IsSymbol(s: string) {
    s != "" && SymbolLength(s) == |s|
  }

  predicate IsSpace(c: char) {
    c == ' ' || c == '\t' || c == '\n' || c == '\r'
  }

  function WordLength(s: string): (n: nat)
    ensures n <= |s|
    ensures forall i | 0 <= i < n :: IsWordChar(s[i])
    ensures n < |s| ==> !IsWordChar(s[n])
  {
    if s == "" || !IsWordChar(s[0]) then 0 else 1 + WordLength(s[1..])
  }

  function DigitsLength(s: string): (n: nat)
    ensures n <= |s|
    ensures forall i | 0 <= i < n :: IsDigit(s[i])
    ensures n < |s| ==> !IsDigit(s[n])
  {
    if s == "" || !IsDigit(s[0]) then 0 else 1 + DigitsLength(s[1..])
  }

  /** The first token of a text that does not start with a space, and how long it is. */
  function FirstToken(s: string): (r: Option<(Token, nat)>)
    requires s != ""
    ensures r.Some? ==> 0 < r.value.1 <= |s|
  {
    if s[0] == '"' then
      var n := Find(s[1..], '"');
      // A doubled quote would be an escaped one: only a table name with quotes in it makes one.
      if n == |s| - 1 || (n + 2 < |s| && s[n + 2] == '"') then None
      else Some((Quoted(s[1..n + 1]), n + 2))
    else if s[0] == '$' then
      var n := DigitsLength(s[1..]);
      if n == 0 then None else Some((Param(DecValue(s[1..][..n])), n + 1))
    else if IsWordChar(s[0]) && !IsDigit(s[0]) then
      var n := WordLength(s);
      Some((Word(s[..n]), n))
    else
      var n := SymbolLength(s);
      if n == 0 then None else Some((Sym(s[..n]), n))
  }

  datatype TokenList = Nil | Cons(head: Token, tail: TokenList)

  function Lex(s: string): Option<TokenList>
    decreases |s|
  {
    if s == "" then Some(Nil)
    else if IsSpace(s[0]) then Lex(s[1..])
    else
      var (t, n) :- FirstToken(s);
      var ts :- Lex(s[n..]);
      Some(Cons(t, ts))
  }

  // ---------------------------------------------------------------- spelling

  function TokenText(t: Token): (s: string)
    ensures ValidToken(t) ==> s != ""
  {
    match t
    case Word(w) => w
    case Quoted(n) => "\"" + n + "\""
    case Param(k) => "$" + Dec(k)
    case Sym(x) => x
  }

  predicate ValidToken(t: Token) {
    match t
    case Word(w) => IsIdent(w)
    case Quoted(n) => '"' !in n
    case Param(k) => true
    case Sym(x) => IsSymbol(x)
  }

  /** Would `c`, written directly after `t`, change how `t` is read? */
  predicate Extends(t: Token, c: char) {
    match t
    case Word(_) => IsWordChar(c)
    case Quoted(_) => c == '"'
    case Param(_) => IsDigit(c)
    case Sym(x) => (x == "<" && (c == '>' || c == '=')) || (x == ">" && c == '=')
  }

  /** A text as tokens with the white space written before each, and the white space at its end. */
  datatype Layout = End(tail: string) | Tok(gap: string, token: Token, rest: Layout)

  function Spell(l: Layout): string {
    match l
    case End(tail) => tail
    case Tok(gap, t, rest) => gap + (TokenText(t) + Spell(rest))
  }

  function Tokens(l: Layout): TokenList {
    match l
    case End(_) => Nil
    case Tok(_, t, rest) => Cons(t, Tokens(rest))
  }

  predicate AllSpace(s: string) {
    forall i | 0 <= i < |s| :: IsSpace(s[i])
  }

  predicate Punctuation(t: Token) {
    t == Sym("(") || t == Sym(")") || t == Sym(",") || t == Sym(".") || t == Sym("*")
  }

  /** Can be written directly after any token. */
  predicate Detached(l: Layout) {
    l.End? || l.gap != "" || Punctuation(l.token)
  }

  /** The tokens that the builders write without white space between them. */
  predicate Tight(t: Token, u: Token) {
    Punctuation(t) || t == Sym("::") || (t.Param? && u == Sym("::"))
  }

  predicate WellSpaced(l: Layout) {
    match l
    case End(tail) => AllSpace(tail)
    case Tok(gap, t, rest) =>
      && ValidToken(t)
      && AllSpace(gap)
      && WellSpaced(rest)
      && (Detached(rest) || Tight(t, rest.token))
  }

  lemma {:induction false} LexSpaces(gap: string, s: string)
    requires AllSpace(gap)
    ensures Lex(gap + s) == Lex(s)
  {
    if gap == "" {
      assert gap + s == s;
    } else {
      assert (gap + s)[1..] == gap[1..] + s;
      LexSpaces(gap[1..], s);
    }
  }

  lemma {:induction false} WordLengthAt(w: string, rest: string)
    requires forall i | 0 <= i < |w| :: IsWordChar(w[i])
    requires rest == "" || !IsWordChar(rest[0])
    ensures WordLength(w + rest) == |w|
  {
    var s := w + rest;
    var n := WordLength(s);
    assert forall i | 0 <= i < |w| :: s[i] == w[i];
    assert |w| < |s| ==> s[|w|] == rest[0];
  }

  lemma {:induction false} DigitsLengthAt(d: string, rest: string)
    requires AllDigits(d)
    requires rest == "" || !IsDigit(rest[0])
    ensures DigitsLength(d + rest) == |d|
  {
    var s := d + rest;
    var n := DigitsLength(s);
    assert forall i | 0 <= i < |d| :: s[i] == d[i];
    assert |d| < |s| ==> s[|d|] == rest[0];
  }

  lemma SymbolLengthAt(x: string, rest: string)
    requires IsSymbol(x)
    requires rest == "" || !Extends(Sym(x), rest[0])
    ensures SymbolLength(x + rest) == |x|
    ensures !IsWordChar(x[0]) && x[0] != '"' && x[0] != '$'
  {
    var s := x + rest;
    assert s[0] == x[0];
    if |x| == 1 {
      assert x == [x[0]];
      assert |s| > 1 ==> s[1] == rest[0];
    } else {
      assert s[1] == x[1];
    }
  }

  lemma WordSpelled(w: string, rest: string)
    requires IsIdent(w)
    requires rest == "" || !IsWordChar(rest[0])
    ensures FirstToken(w + rest) == Some((Word(w), |w|))
  {
    var s := w + rest;
    WordLengthAt(w, rest);
    assert s[0] == w[0] && s[..|w|] == w;
  }

  lemma QuotedSpelled(n: string, rest: string)
    requires '"' !in n
    requires rest == "" || rest[0] != '"'
    ensures FirstToken("\"" + n + "\"" + rest) == Some((Quoted(n), |n| + 2))
  {
    var s := "\"" + n + "\"" + rest;
    FindAt(n, '"', rest);
    assert s[0] == '"';
    assert s[1..] == n + ['"'] + rest;
    assert s[1..|n| + 1] == n;
    assert |n| + 2 < |s| ==> s[|n| + 2] == rest[0];
  }

  lemma ParamSpelled(k: nat, rest: string)
    requires rest == "" || !IsDigit(rest[0])
    ensures FirstToken("$" + Dec(k) + rest) == Some((Param(k), |Dec(k)| + 1))
  {
    var s := "$" + Dec(k) + rest;
    DigitsLengthAt(Dec(k), rest);
    DecRoundTrip(k);
    assert s[1..] == Dec(k) + rest;
    assert s[1..][..|Dec(k)|] == Dec(k);
  }

  lemma SymSpelled(x: string, rest: string)
    requires IsSymbol(x)
    requires rest == "" || !Extends(Sym(x), rest[0])
    ensures FirstToken(x + rest) == Some((Sym(x), |x|))
  {
    SymbolLengthAt(x, rest);
    assert (x + rest)[..|x|] == x;
  }

  lemma TokenNotSpace(t: Token)
    requires ValidToken(t)
    ensures !IsSpace(TokenText(t)[0])
  {
  }

  lemma FirstTokenSpelled(t: Token, rest: string)
    requires ValidToken(t)
    requires rest == "" || !Extends(t, rest[0])
    ensures FirstToken(TokenText(t) + rest) == Some((t, |TokenText(t)|))
  {
    match t
    case Word(w) => WordSpelled(w, rest);
    case Quoted(n) => QuotedSpelled(n, rest);
    case Param(k) => ParamSpelled(k, rest);
    case Sym(x) => SymSpelled(x, rest);
  }

  /** What follows a token in a well-spaced layout does not extend it. */
  lemma SeamReadable(t: Token, rest: Layout)
    requires ValidToken(t) && WellSpaced(rest)
    requires Detached(rest) || Tight(t, rest.token)
    ensures Spell(rest) == "" || !Extends(t, Spell(rest)[0])
  {
    if rest.Tok? && rest.gap == "" {
      assert Spell(rest)[0] == TokenText(rest.token)[0];
      if Tight(t, rest.token) && !Punctuation(t) && rest.token.Sym? {
        assert IsSymbol(rest.token.text);
      }
    }
  }

  /** Lexing undoes spelling. */
  lemma {:induction false} LexSpell(l: Layout)
    requires WellSpaced(l)
    ensures Lex(Spell(l)) == Some(Tokens(l))
  {
    match l
    case End(tail) =>
      LexSpaces(tail, "");
      assert tail + "" == tail;
    case Tok(gap, t, rest) =>
      LexSpell(rest);
      SeamReadable(t, rest);
      var s := TokenText(t) + Spell(rest);
      FirstTokenSpelled(t, Spell(rest));
      TokenNotSpace(t);
      assert s[|TokenText(t)|..] == Spell(rest);
      LexSpaces(gap, s);
  }

  // ---------------------------------------------------------------- placeholders

  /** The placeholder numbers of a statement, from left to right. */
  function Placeholders(ts: TokenList): seq<nat> {
    match ts
    case Nil => []
    case Cons(Param(k), rest) => [k] + Placeholders(rest)
    case Cons(_, rest) => Placeholders(rest)
  }

  /** The placeholders of `l` are `$(n+1)` to `$m`, each once and in order. */
  predicate Counts(l: Layout, n: nat, m: nat) {
    match l
    case End(_) => n == m
    case Tok(_, Param(k), rest) => k == n + 1 && Counts(rest, n + 1, m)
    case Tok(_, _, rest) => Counts(rest, n, m)
  }

  lemma {:induction false} CountsPlaceholders(l: Layout, n: nat, m: nat)
    requires Counts(l, n, m)
    ensures n <= m
    ensures Placeholders(Tokens(l)) == seq(m - n, i => n + 1 + i)
  {
    match l
    case End(_) =>
    case Tok(_, Param(k), rest) =>
      CountsPlaceholders(rest, n + 1, m);
    case Tok(_, _, rest) =>
      CountsPlaceholders(rest, n, m);
  }
}
