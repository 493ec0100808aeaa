/** A reader for the emitted SQL that resolves placeholders against the bind list, and its round trip. */
module SqlReader {
  import opened Wrappers
  import opened Text
  import opened Catalog
  import opened SqlTokens
  import opened SqlStatements
  import opened SqlFrames

  type Read<T> = Option<(T, TokenList)>

  predicate StartsWith(ts: TokenList, t: Token) {
    ts.Cons? && ts.head == t
  }

  function Expect(ts: TokenList, t: Token): Option<TokenList> {
    if StartsWith(ts, t) then Some(ts.tail) else None
  }

  function ExpectWords(ts: TokenList, words: seq<string>): Option<TokenList> {
    if words == [] then Some(ts)
    else
      var rest :- Expect(ts, Word(words[0]));
      ExpectWords(rest, words[1..])
  }

  /** `words(x)` */
  function ExpectCall(ts: TokenList, words: seq<string>, x: string): Option<TokenList> {
    var ts1 :- ExpectWords(ts, words);
    var ts2 :- Expect(ts1, Sym("("));
    var ts3 :- Expect(ts2, Word(x));
    Expect(ts3, Sym(")"))
  }

  function ExpectJson(ts: TokenList, x: string): Option<TokenList> {
    var ts1 :- ExpectCall(ts, ["SELECT", "row_to_json"], x);
    ExpectWords(ts1, ["AS", "data"])
  }

  function ExpectOpen(ts: TokenList, x: string): Option<TokenList> {
    var ts1 :- ExpectWords(ts, ["WITH", x, "AS"]);
    Expect(ts1, Sym("("))
  }

  /** `RETURNING * ) SELECT row_to_json(x) AS data FROM x`, and then nothing. */
  predicate IsClose(ts: TokenList, x: string) {
    CloseRest(ts, x) == Some(Nil)
  }

  function CloseRest(ts: TokenList, x: string): Option<TokenList> {
    var ts1 :- Expect(ts, Word("RETURNING"));
    var ts2 :- Expect(ts1, Sym("*"));
    var ts3 :- Expect(ts2, Sym(")"));
    var ts4 :- ExpectJson(ts3, x);
    ExpectWords(ts4, ["FROM", x])
  }

  function ReadQuoted(ts: TokenList): Read<string> {
    if ts.Cons? && ts.head.Quoted? then Some((ts.head.name, ts.tail)) else None
  }

  function ReadTable(ts: TokenList): Read<(string, string)> {
    var (schema, ts1) :- ReadQuoted(ts);
    var ts2 :- Expect(ts1, Sym("."));
    var (table, ts3) :- ReadQuoted(ts2);
    Some(((schema, table), ts3))
  }

  /** `$k`, resolved to the k-th bound value. */
  function ReadParam(ts: TokenList, binds: seq<string>): Read<string> {
    if ts.Cons? && ts.head.Param? && 1 <= ts.head.index <= |binds|
    then Some((binds[ts.head.index - 1], ts.tail)) else None
  }

  function ReadBound(ts: TokenList, binds: seq<string>): Read<(string, string)> {
    var (text, ts1) :- ReadParam(ts, binds);
    var ts2 :- Expect(ts1, Sym("::"));
    if ts2.Cons? && ts2.head.Word? then Some(((text, ts2.head.text), ts2.tail)) else None
  }

  function ReadOp(t: Token): Option<CompareOp> {
    if t == Sym("=") then Some(Equal)
    else if t == Sym("<>") then Some(NotEqual)
    else if t == Sym(">") then Some(Greater)
    else if t == Sym(">=") then Some(GreaterEqual)
    else if t == Sym("<") then Some(Less)
    else if t == Sym("<=") then Some(LessEqual)
    else if t == Word("LIKE") then Some(LikeOp)
    else if t == Word("ILIKE") then Some(ILikeOp)
    else None
  }

  function ReadCond(ts: TokenList, binds: seq<string>): (r: Read<Cond>)
    ensures r.Some? ==> r.value.1 < ts
  {
    if ts.Nil? || !ts.head.Quoted? || ts.tail.Nil? then None
    else
      var col, ts1 := ts.head.name, ts.tail;
      if ts1.head == Word("IS") then
        var ts2 := ts1.tail;
        if StartsWith(ts2, Word("NULL")) then Some((IsNull(col), ts2.tail))
        else if StartsWith(ts2, Word("NOT")) && StartsWith(ts2.tail, Word("NULL")) then
          Some((IsNotNull(col), ts2.tail.tail))
        else None
      else
        var op :- ReadOp(ts1.head);
        var ((text, cast), ts2) :- ReadBound(ts1.tail, binds);
        Some((Compare(col, op, text, cast), ts2))
  }

  function ReadConds(ts: TokenList, binds: seq<string>): Read<seq<Cond>>
    decreases ts
  {
    var (c, ts1) :- ReadCond(ts, binds);
    if StartsWith(ts1, Word("AND")) then
      var (cs, ts2) :- ReadConds(ts1.tail, binds);
      Some(([c] + cs, ts2))
    else Some(([c], ts1))
  }

  function ReadWhere(ts: TokenList, binds: seq<string>): Read<seq<Cond>> {
    if StartsWith(ts, Word("WHERE")) then ReadConds(ts.tail, binds) else Some(([], ts))
  }

  function ReadNames(ts: TokenList): Read<seq<string>>
    decreases ts
  {
    if ts.Nil? || !ts.head.Quoted? then None
    else if StartsWith(ts.tail, Sym(",")) then
      var (names, ts2) :- ReadNames(ts.tail.tail);
      Some(([ts.head.name] + names, ts2))
    else Some(([ts.head.name], ts.tail))
  }

  function ReadCell(ts: TokenList, binds: seq<string>): (r: Read<Cell>)
    ensures r.Some? ==> r.value.1 < ts
  {
    if StartsWith(ts, Word("DEFAULT")) then Some((DefaultCell, ts.tail))
    else if StartsWith(ts, Word("NULL")) then Some((NullCell, ts.tail))
    else
      var ((text, cast), ts1) :- ReadBound(ts, binds);
      Some((Bound(text, cast), ts1))
  }

  function ReadCells(ts: TokenList, binds: seq<string>): (r: Read<seq<Cell>>)
    ensures r.Some? ==> r.value.1 < ts
    decreases ts
  {
    var (c, ts1) :- ReadCell(ts, binds);
    if StartsWith(ts1, Sym(",")) then
      var (cs, ts2) :- ReadCells(ts1.tail, binds);
      Some(([c] + cs, ts2))
    else Some(([c], ts1))
  }

  function ReadTuple(ts: TokenList, binds: seq<string>): (r: Read<seq<Cell>>)
    ensures r.Some? ==> r.value.1 < ts
  {
    var ts1 :- Expect(ts, Sym("("));
    var (cs, ts2) :- ReadCells(ts1, binds);
    var ts3 :- Expect(ts2, Sym(")"));
    Some((cs, ts3))
  }

  function ReadRows(ts: TokenList, binds: seq<string>): Read<seq<seq<Cell>>>
    decreases ts
  {
    var (r, ts1) :- ReadTuple(ts, binds);
    if StartsWith(ts1, Sym(",")) then
      var (rs, ts2) :- ReadRows(ts1.tail, binds);
      Some(([r] + rs, ts2))
    else Some(([r], ts1))
  }

  function ReadSet(ts: TokenList, binds: seq<string>): (r: Read<Assignment>)
    ensures r.Some? ==> r.value.1 < ts
  {
    var (col, ts1) :- ReadQuoted(ts);
    var ts2 :- Expect(ts1, Sym("="));
    var (c, ts3) :- ReadCell(ts2, binds);
    Some((Assignment(col, c), ts3))
  }

  function ReadSets(ts: TokenList, binds: seq<string>): Read<seq<Assignment>>
    decreases ts
  {
    var (s, ts1) :- ReadSet(ts, binds);
    if StartsWith(ts1, Sym(",")) then
      var (ss, ts2) :- ReadSets(ts1.tail, binds);
      Some(([s] + ss, ts2))
    else Some(([s], ts1))
  }

  function ReadProjection(ts: TokenList): Read<Projection> {
    if StartsWith(ts, Sym("*")) then Some((AllColumns, ts.tail))
    else
      var (names, ts1) :- ReadNames(ts);
      Some((Columns(names), ts1))
  }

  function ReadOrder(ts: TokenList): Read<Option<(string, bool)>> {
    if StartsWith(ts, Word("ORDER")) then
      var ts1 :- ExpectWords(ts, ["ORDER", "BY"]);
      var (col, ts2) :- ReadQuoted(ts1);
      if StartsWith(ts2, Word("DESC")) then Some((Some((col, true)), ts2.tail))
      else if StartsWith(ts2, Word("ASC")) then Some((Some((col, false)), ts2.tail))
      else None
    else Some((None, ts))
  }

  function ReadBoundClause(word: string, ts: TokenList, binds: seq<string>): Read<Option<string>> {
    if StartsWith(ts, Word(word)) then
      var (text, ts1) :- ReadParam(ts.tail, binds);
      Some((Some(text), ts1))
    else Some((None, ts))
  }

  datatype Clauses = Clauses(conds: seq<Cond>, order: Option<(string, bool)>, limit: Option<string>, offset: Option<string>)

  /** The clauses of the inner SELECT, and its end. */
  function ReadClauses(ts: TokenList, binds: seq<string>): Option<Clauses> {
    var (conds, ts1) :- ReadWhere(ts, binds);
    var (order, ts2) :- ReadOrder(ts1);
    var (limit, ts3) :- ReadBoundClause("LIMIT", ts2, binds);
    var (offset, ts4) :- ReadBoundClause("OFFSET", ts3, binds);
    if ts4 == Cons(Sym(")"), Cons(Word("t"), Nil)) then Some(Clauses(conds, order, limit, offset)) else None
  }

  function ReadSelectBody(ts: TokenList, binds: seq<string>): Option<Statement> {
    var (projection, ts1) :- ReadProjection(ts);
    var ts2 :- Expect(ts1, Word("FROM"));
    var ((schema, table), ts3) :- ReadTable(ts2);
    var c :- ReadClauses(ts3, binds);
    Some(Select(schema, table, projection, c.conds, c.order, c.limit, c.offset))
  }

  function ReadSelect(ts: TokenList, binds: seq<string>): Option<Statement> {
    var ts1 :- ExpectJson(ts, "t");
    var ts2 :- Expect(ts1, Word("FROM"));
    var ts3 :- Expect(ts2, Sym("("));
    var ts4 :- Expect(ts3, Word("SELECT"));
    ReadSelectBody(ts4, binds)
  }

  function ReadInsert(ts: TokenList, binds: seq<string>): Option<Statement> {
    var ts1 :- ExpectOpen(ts, "ins");
    var ts2 :- ExpectWords(ts1, ["INSERT", "INTO"]);
    var ((schema, table), ts3) :- ReadTable(ts2);
    if StartsWith(ts3, Word("DEFAULT")) then
      var ts4 :- ExpectWords(ts3, ["DEFAULT", "VALUES"]);
      if IsClose(ts4, "ins") then Some(InsertDefault(schema, table)) else None
    else
      var ts4 :- Expect(ts3, Sym("("));
      var (columns, ts5) :- ReadNames(ts4);
      var ts6 :- Expect(ts5, Sym(")"));
      var ts7 :- Expect(ts6, Word("VALUES"));
      var (rows, ts8) :- ReadRows(ts7, binds);
      if IsClose(ts8, "ins") then Some(Insert(schema, table, columns, rows)) else None
  }

  function ReadUpdate(ts: TokenList, binds: seq<string>): Option<Statement> {
    var ts1 :- ExpectOpen(ts, "updated");
    var ts2 :- Expect(ts1, Word("UPDATE"));
    var ((schema, table), ts3) :- ReadTable(ts2);
    var ts4 :- Expect(ts3, Word("SET"));
    var (sets, ts5) :- ReadSets(ts4, binds);
    var (conds, ts6) :- ReadWhere(ts5, binds);
    if IsClose(ts6, "updated") then Some(Update(schema, table, sets, conds)) else None
  }

  function ReadDelete(ts: TokenList, binds: seq<string>): Option<Statement> {
    var ts1 :- ExpectOpen(ts, "deleted");
    var ts2 :- ExpectWords(ts1, ["DELETE", "FROM"]);
    var ((schema, table), ts3) :- ReadTable(ts2);
    var (conds, ts4) :- ReadWhere(ts3, binds);
    if IsClose(ts4, "deleted") then Some(Delete(schema, table, conds)) else None
  }

  /** The statement kind is decided by its first words. */
  function ReadStatement(ts: TokenList, binds: seq<string>): Option<Statement> {
    if StartsWith(ts, Word("SELECT")) then ReadSelect(ts, binds)
    else if ts.Cons? && StartsWith(ts.tail, Word("ins")) then ReadInsert(ts, binds)
    else if ts.Cons? && StartsWith(ts.tail, Word("updated")) then ReadUpdate(ts, binds)
    else ReadDelete(ts, binds)
  }

  /** What a database makes of a statement text and its bound values. */
  function Denote(sql: string, binds: seq<string>): Option<Statement> {
    var ts :- Lex(sql);
    ReadStatement(ts, binds)
  }

  // ---------------------------------------------------------------- reading back the parts

  /** The bound values of a part stand in the bind list from position `n` on. */
  predicate Holds(binds: seq<string>, n: nat, part: seq<string>) {
    n + |part| <= |binds| && binds[n..n + |part|] == part
  }

  lemma HoldsAll(binds: seq<string>)
    ensures Holds(binds, 0, binds)
  {
  }

  lemma HoldsSplit(binds: seq<string>, n: nat, a: seq<string>, b: seq<string>)
    requires Holds(binds, n, a + b)
    ensures Holds(binds, n, a) && Holds(binds, n + |a|, b)
  {
    var s := binds[n..n + |a + b|];
    assert s[..|a|] == a && s[|a|..] == b;
    assert binds[n..n + |a|] == s[..|a|];
    assert binds[n + |a|..n + |a| + |b|] == s[|a|..];
  }

  lemma BoundReads(gap: string, text: string, cast: string, n: nat, rest: Layout, binds: seq<string>)
    requires Holds(binds, n, [text])
    ensures ReadBound(Tokens(BoundLayout(gap, cast, n, rest)), binds) == Some(((text, cast), Tokens(rest)))
  {
    assert binds[n..n + 1][0] == binds[n];
    var l2 := Tok("", Word(cast), rest);
    var l1 := Tok("", Sym("::"), l2);
    assert Tokens(l2) == Cons(Word(cast), Tokens(rest));
    assert Tokens(l1) == Cons(Sym("::"), Tokens(l2));
  }

  lemma CondReads(gap: string, c: Cond, n: nat, rest: Layout, binds: seq<string>)
    requires Holds(binds, n, CondBinds(c))
    ensures ReadCond(Tokens(CondLayout(gap, c, n, rest)), binds) == Some((c, Tokens(rest)))
  {
    match c
    case Compare(col, op, text, cast) =>
      BoundReads(" ", text, cast, n, rest, binds);
      var l := BoundLayout(" ", cast, n, rest);
      assert ReadOp(OpToken(op)) == Some(op) && OpToken(op) != Word("IS");
      assert Tokens(Tok(" ", OpToken(op), l)) == Cons(OpToken(op), Tokens(l));
    case IsNull(col) =>
      var l := Tok(" ", Word("NULL"), rest);
      assert Tokens(l) == Cons(Word("NULL"), Tokens(rest));
      assert Tokens(Tok(" ", Word("IS"), l)) == Cons(Word("IS"), Tokens(l));
    case IsNotNull(col) =>
      var l := Tok(" ", Word("NULL"), rest);
      var l1 := Tok(" ", Word("NOT"), l);
      assert Tokens(l) == Cons(Word("NULL"), Tokens(rest));
      assert Tokens(l1) == Cons(Word("NOT"), Tokens(l));
      assert Tokens(Tok(" ", Word("IS"), l1)) == Cons(Word("IS"), Tokens(l1));
  }

  lemma TokensTok(gap: string, t: Token, rest: Layout)
    ensures Tokens(Tok(gap, t, rest)) == Cons(t, Tokens(rest))
  {
  }

  lemma CondsMore(ts: TokenList, c: Cond, more: TokenList, cs: seq<Cond>, rest: TokenList, binds: seq<string>)
    requires ReadCond(ts, binds) == Some((c, Cons(Word("AND"), more)))
    requires ReadConds(more, binds) == Some((cs, rest))
    ensures ReadConds(ts, binds) == Some(([c] + cs, rest))
  {
  }

  lemma {:induction false} CondsRead(cs: seq<Cond>, n: nat, rest: Layout, binds: seq<string>)
    requires cs != [] && Holds(binds, n, CondsBinds(cs))
    requires !StartsWith(Tokens(rest), Word("AND"))
    ensures ReadConds(Tokens(CondsLayout(cs, n, rest)), binds) == Some((cs, Tokens(rest)))
  {
    var k := n + |CondBinds(cs[0])|;
    HoldsSplit(binds, n, CondBinds(cs[0]), CondsBinds(cs[1..]));
    hide Holds, CondBinds, CondsBinds, CondLayout, ReadCond, Tokens;
    if |cs| == 1 {
      CondReads(" ", cs[0], n, rest, binds);
      assert cs == [cs[0]];
    } else {
      var l := CondsLayout(cs[1..], k, rest);
      CondReads(" ", cs[0], n, Tok(" ", Word("AND"), l), binds);
      TokensTok(" ", Word("AND"), l);
      CondsRead(cs[1..], k, rest, binds);
      CondsMore(Tokens(CondsLayout(cs, n, rest)), cs[0], Tokens(l), cs[1..], Tokens(rest), binds);
      HeadTail(cs);
    }
  }

  lemma {:induction false} NamesRead(gap: string, names: seq<string>, rest: Layout)
    requires names != [] && !StartsWith(Tokens(rest), Sym(","))
    ensures ReadNames(Tokens(NamesLayout(gap, names, rest))) == Some((names, Tokens(rest)))
    decreases |names|
  {
    if |names| == 1 {
      assert names == [names[0]];
    } else {
      var l := NamesLayout(" ", names[1..], rest);
      NamesRead(" ", names[1..], rest);
      assert Tokens(Tok("", Sym(","), l)) == Cons(Sym(","), Tokens(l));
      assert names == [names[0]] + names[1..];
    }
  }

  lemma CellReads(gap: string, c: Cell, n: nat, rest: Layout, binds: seq<string>)
    requires Holds(binds, n, CellBinds(c))
    ensures ReadCell(Tokens(CellLayout(gap, c, n, rest)), binds) == Some((c, Tokens(rest)))
  {
    if c.Bound? {
      BoundReads(gap, c.text, c.cast, n, rest, binds);
    }
  }

  lemma {:induction false} CellsRead(gap: string, cs: seq<Cell>, n: nat, rest: Layout, binds: seq<string>)
    requires cs != [] && Holds(binds, n, CellsBinds(cs))
    requires !StartsWith(Tokens(rest), Sym(","))
    ensures ReadCells(Tokens(CellsLayout(gap, cs, n, rest)), binds) == Some((cs, Tokens(rest)))
    decreases |cs|
  {
    var k := n + |CellBinds(cs[0])|;
    HoldsSplit(binds, n, CellBinds(cs[0]), CellsBinds(cs[1..]));
    hide Holds, CellBinds, CellsBinds, CellLayout, ReadCell;
    if |cs| == 1 {
      CellReads(gap, cs[0], n, rest, binds);
      assert cs == [cs[0]];
    } else {
      var l := CellsLayout(" ", cs[1..], k, rest);
      CellReads(gap, cs[0], n, Tok("", Sym(","), l), binds);
      assert Tokens(Tok("", Sym(","), l)) == Cons(Sym(","), Tokens(l));
      hide Tokens;
      CellsRead(" ", cs[1..], k, rest, binds);
      HeadTail(cs);
    }
  }

  lemma TupleReads(cs: seq<Cell>, n: nat, rest: Layout, binds: seq<string>)
    requires cs != [] && Holds(binds, n, CellsBinds(cs))
    ensures ReadTuple(Tokens(TupleLayout(cs, n, rest)), binds) == Some((cs, Tokens(rest)))
  {
    var l := Tok("", Sym(")"), rest);
    assert Tokens(l) == Cons(Sym(")"), Tokens(rest));
    CellsRead("", cs, n, l, binds);
  }

  lemma HeadTail<T>(s: seq<T>)
    requires s != []
    ensures s == [s[0]] + s[1..]
  {
  }

  lemma RowsMore(ts: TokenList, r: seq<Cell>, more: TokenList, rs: seq<seq<Cell>>, rest: TokenList, binds: seq<string>)
    requires ReadTuple(ts, binds) == Some((r, Cons(Sym(","), more)))
    requires ReadRows(more, binds) == Some((rs, rest))
    ensures ReadRows(ts, binds) == Some(([r] + rs, rest))
  {
  }

  lemma RowsStep(rows: seq<seq<Cell>>, n: nat, k: nat, rest: Layout, binds: seq<string>)
    requires ValidRows(rows) && |rows| > 1 && ValidRows(rows[1..])
    requires k == n + |CellsBinds(rows[0])| && Holds(binds, n, CellsBinds(rows[0]))
    requires ReadRows(Tokens(RowsLayout(rows[1..], k, rest)), binds) == Some((rows[1..], Tokens(rest)))
    ensures ReadRows(Tokens(RowsLayout(rows, n, rest)), binds) == Some((rows, Tokens(rest)))
  {
    assert rows[0] != [];
    hide Holds, CellsBinds, TupleLayout, ReadTuple, ReadRows, ValidRows, Tokens;
    var l := RowsLayout(rows[1..], k, rest);
    assert RowsLayout(rows, n, rest) == TupleLayout(rows[0], n, Tok("", Sym(","), l));
    hide RowsLayout;
    TupleReads(rows[0], n, Tok("", Sym(","), l), binds);
    TokensTok("", Sym(","), l);
    RowsMore(Tokens(RowsLayout(rows, n, rest)), rows[0], Tokens(l), rows[1..], Tokens(rest), binds);
    HeadTail(rows);
  }

  lemma {:induction false} RowsRead(rows: seq<seq<Cell>>, n: nat, rest: Layout, binds: seq<string>)
    requires ValidRows(rows) && Holds(binds, n, RowsBinds(rows))
    requires !StartsWith(Tokens(rest), Sym(","))
    ensures ReadRows(Tokens(RowsLayout(rows, n, rest)), binds) == Some((rows, Tokens(rest)))
  {
    var k := n + |CellsBinds(rows[0])|;
    HoldsSplit(binds, n, CellsBinds(rows[0]), RowsBinds(rows[1..]));
    assert rows[0] != [] && (|rows| > 1 ==> ValidRows(rows[1..]));
    hide Holds, CellsBinds, RowsBinds, TupleLayout, ReadTuple, ValidRows, Tokens;
    if |rows| == 1 {
      TupleReads(rows[0], n, rest, binds);
      assert rows == [rows[0]];
    } else {
      hide RowsLayout, ReadRows;
      RowsRead(rows[1..], k, rest, binds);
      RowsStep(rows, n, k, rest, binds);
    }
  }

  lemma SetReads(s: Assignment, n: nat, rest: Layout, binds: seq<string>)
    requires Holds(binds, n, CellBinds(s.cell))
    ensures ReadSet(Tokens(Tok(" ", Quoted(s.column), Tok(" ", Sym("="), CellLayout(" ", s.cell, n, rest)))), binds)
         == Some((s, Tokens(rest)))
  {
    var l := CellLayout(" ", s.cell, n, rest);
    CellReads(" ", s.cell, n, rest, binds);
    assert Tokens(Tok(" ", Sym("="), l)) == Cons(Sym("="), Tokens(l));
  }

  lemma SetsMore(ts: TokenList, a: Assignment, more: TokenList, sets: seq<Assignment>, rest: TokenList,
                 binds: seq<string>)
    requires ReadSet(ts, binds) == Some((a, Cons(Sym(","), more)))
    requires ReadSets(more, binds) == Some((sets, rest))
    ensures ReadSets(ts, binds) == Some(([a] + sets, rest))
  {
  }

  lemma {:induction false} SetsRead(sets: seq<Assignment>, n: nat, rest: Layout, binds: seq<string>)
    requires sets != [] && Holds(binds, n, SetsBinds(sets))
    requires !StartsWith(Tokens(rest), Sym(","))
    ensures ReadSets(Tokens(SetsLayout(sets, n, rest)), binds) == Some((sets, Tokens(rest)))
  {
    var k := n + |CellBinds(sets[0].cell)|;
    HoldsSplit(binds, n, CellBinds(sets[0].cell), SetsBinds(sets[1..]));
    hide Holds, CellBinds, SetsBinds, CellLayout, ReadSet, Tokens;
    if |sets| == 1 {
      SetReads(sets[0], n, rest, binds);
      assert sets == [sets[0]];
    } else {
      var l := SetsLayout(sets[1..], k, rest);
      SetReads(sets[0], n, Tok("", Sym(","), l), binds);
      TokensTok("", Sym(","), l);
      SetsRead(sets[1..], k, rest, binds);
      SetsMore(Tokens(SetsLayout(sets, n, rest)), sets[0], Tokens(l), sets[1..], Tokens(rest), binds);
      HeadTail(sets);
    }
  }

  lemma {:induction false} WordsRead(gap: string, words: seq<string>, rest: Layout)
    requires words != []
    ensures ExpectWords(Tokens(WordsLayout(gap, words, rest)), words) == Some(Tokens(rest))
    decreases |words|
  {
    if |words| > 1 {
      WordsRead(" ", words[1..], rest);
    }
  }

  lemma CallReads(words: seq<string>, gap: string, x: string, rest: Layout)
    requires words != []
    ensures ExpectCall(Tokens(CallLayout(words, gap, x, rest)), words, x) == Some(Tokens(rest))
  {
    var l3 := Tok("", Sym(")"), rest);
    var l2 := Tok("", Word(x), l3);
    var l1 := Tok("", Sym("("), l2);
    assert Tokens(l3) == Cons(Sym(")"), Tokens(rest));
    assert Tokens(l2) == Cons(Word(x), Tokens(l3));
    WordsRead(gap, words, l1);
  }

  lemma JsonReads(gap: string, x: string, rest: Layout)
    ensures ExpectJson(Tokens(JsonLayout(gap, x, rest)), x) == Some(Tokens(rest))
    ensures StartsWith(Tokens(JsonLayout(gap, x, rest)), Word("SELECT"))
  {
    WordsRead(" ", ["AS", "data"], rest);
    CallReads(["SELECT", "row_to_json"], gap, x, WordsLayout(" ", ["AS", "data"], rest));
  }

  lemma OpenReads(gap: string, x: string, rest: Layout)
    ensures ExpectOpen(Tokens(OpenLayout(gap, x, rest)), x) == Some(Tokens(rest))
    ensures var ts := Tokens(OpenLayout(gap, x, rest)); StartsWith(ts, Word("WITH")) && StartsWith(ts.tail, Word(x))
  {
    WordsRead(gap, ["WITH", x, "AS"], Tok(" ", Sym("("), rest));
    assert ["WITH", x, "AS"][1..] == [x, "AS"];
  }

  lemma CloseReads(inner: string, outer: string, from: string, x: string)
    ensures IsClose(Tokens(CloseLayout(inner, outer, from, x)), x)
    ensures StartsWith(Tokens(CloseLayout(inner, outer, from, x)), Word("RETURNING"))
  {
    hide ExpectWords, ExpectJson, WordsLayout, JsonLayout;
    var l1 := WordsLayout(from, ["FROM", x], End(outer));
    WordsRead(from, ["FROM", x], End(outer));
    JsonReads(outer, x, l1);
    var l2 := Tok(outer, Sym(")"), JsonLayout(outer, x, l1));
    assert Tokens(l2) == Cons(Sym(")"), Tokens(JsonLayout(outer, x, l1)));
    assert Tokens(Tok(" ", Sym("*"), l2)) == Cons(Sym("*"), Tokens(l2));
  }

  lemma TableReads(gap: string, schema: string, table: string, rest: Layout)
    ensures ReadTable(Tokens(TableLayout(gap, schema, table, rest))) == Some(((schema, table), Tokens(rest)))
  {
    var l2 := Tok("", Quoted(table), rest);
    assert Tokens(l2) == Cons(Quoted(table), Tokens(rest));
    assert Tokens(Tok("", Sym("."), l2)) == Cons(Sym("."), Tokens(l2));
  }

  lemma WhereReads(conds: seq<Cond>, n: nat, rest: Layout, binds: seq<string>)
    requires Holds(binds, n, CondsBinds(conds))
    requires !StartsWith(Tokens(rest), Word("AND")) && !StartsWith(Tokens(rest), Word("WHERE"))
    ensures ReadWhere(Tokens(WhereLayout(conds, n, rest)), binds) == Some((conds, Tokens(rest)))
  {
    if conds != [] {
      CondsRead(conds, n, rest, binds);
    }
  }

  lemma OrderReads(order: Option<(string, bool)>, rest: Layout)
    requires !StartsWith(Tokens(rest), Word("ORDER"))
    ensures ReadOrder(Tokens(OrderLayout(order, rest))) == Some((order, Tokens(rest)))
    ensures order.Some? ==> StartsWith(Tokens(OrderLayout(order, rest)), Word("ORDER"))
  {
    if order.Some? {
      var (col, desc) := order.value;
      var l2 := Tok(" ", Word(Direction(desc)), rest);
      assert Tokens(l2) == Cons(Word(Direction(desc)), Tokens(rest));
      assert "ASC" != "DESC";
      WordsRead(" ", ["ORDER", "BY"], Tok(" ", Quoted(col), l2));
    }
  }

  lemma BoundClauseReads(word: string, o: Option<string>, n: nat, rest: Layout, binds: seq<string>)
    requires Holds(binds, n, OptionBinds(o)) && !StartsWith(Tokens(rest), Word(word))
    ensures ReadBoundClause(word, Tokens(BoundClauseLayout(word, o, n, rest)), binds) == Some((o, Tokens(rest)))
    ensures o.Some? ==> StartsWith(Tokens(BoundClauseLayout(word, o, n, rest)), Word(word))
  {
    if o.Some? {
      assert binds[n..n + 1][0] == binds[n];
      assert Tokens(Tok(" ", Param(n + 1), rest)) == Cons(Param(n + 1), Tokens(rest));
    }
  }

  lemma ProjectionReads(p: Projection, rest: Layout)
    requires p.Columns? ==> p.names != []
    requires !StartsWith(Tokens(rest), Sym(","))
    ensures ReadProjection(Tokens(ProjectionLayout(p, rest))) == Some((p, Tokens(rest)))
  {
    if p.Columns? {
      NamesRead(" ", p.names, rest);
    }
  }

  // ---------------------------------------------------------------- reading back statements

  lemma DistinctKeywords()
    ensures "AND" != "ORDER" && "AND" != "LIMIT" && "AND" != "OFFSET" && "AND" != "RETURNING"
    ensures "WHERE" != "ORDER" && "WHERE" != "LIMIT" && "WHERE" != "OFFSET" && "WHERE" != "RETURNING"
    ensures "ORDER" != "LIMIT" && "ORDER" != "OFFSET" && "LIMIT" != "OFFSET"
    ensures "WITH" != "SELECT" && "ins" != "updated" && "ins" != "deleted" && "updated" != "deleted"
  {
  }

  lemma LimitsRead(limit: Option<string>, offset: Option<string>, n: nat, binds: seq<string>)
    requires Holds(binds, n, OptionBinds(limit) + OptionBinds(offset))
    ensures var ts := Tokens(LimitsLayout(limit, offset, n));
      && var r := ReadBoundClause("LIMIT", ts, binds);
      && r.Some? && r.value.0 == limit
      && ReadBoundClause("OFFSET", r.value.1, binds) == Some((offset, Cons(Sym(")"), Cons(Word("t"), Nil))))
    ensures var ts := Tokens(LimitsLayout(limit, offset, n));
      StartsWith(ts, Word("LIMIT")) || StartsWith(ts, Word("OFFSET")) || StartsWith(ts, Sym(")"))
  {
    DistinctKeywords();
    HoldsSplit(binds, n, OptionBinds(limit), OptionBinds(offset));
    var end := SelectEnd();
    assert Tokens(end) == Cons(Sym(")"), Cons(Word("t"), Nil));
    hide Tokens, Holds, SelectEnd, ReadBoundClause;
    var k := n + |OptionBinds(limit)|;
    var l1 := BoundClauseLayout("OFFSET", offset, k, end);
    BoundClauseReads("OFFSET", offset, k, end, binds);
    BoundClauseReads("LIMIT", limit, n, l1, binds);
  }

  lemma ClausesRead(conds: seq<Cond>, order: Option<(string, bool)>, limit: Option<string>, offset: Option<string>,
                    binds: seq<string>)
    requires Holds(binds, 0, CondsBinds(conds) + (OptionBinds(limit) + OptionBinds(offset)))
    ensures ReadClauses(Tokens(SelectClauses(conds, order, limit, offset)), binds)
         == Some(Clauses(conds, order, limit, offset))
  {
    DistinctKeywords();
    HoldsSplit(binds, 0, CondsBinds(conds), OptionBinds(limit) + OptionBinds(offset));
    hide Holds, CondsBinds, OptionBinds, Tokens, LimitsLayout, OrderLayout, WhereLayout, ReadWhere, ReadOrder, ReadBoundClause;
    var l0 := LimitsLayout(limit, offset, |CondsBinds(conds)|);
    LimitsRead(limit, offset, |CondsBinds(conds)|, binds);
    OrderReads(order, l0);
    OrderStart(order, l0);
    WhereReads(conds, 0, OrderLayout(order, l0), binds);
  }

  lemma OrderStart(order: Option<(string, bool)>, rest: Layout)
    ensures order.None? ==> OrderLayout(order, rest) == rest
  {
  }

  lemma SelectBodyReads(s: Statement)
    requires ValidStatement(s) && s.Select?
    ensures var clauses := SelectClauses(s.conds, s.order, s.limit, s.offset);
      ReadSelectBody(Tokens(ProjectionLayout(s.projection, SelectFrom(s.schema, s.table, clauses))),
        StatementBinds(s)) == Some(s)
  {
    var binds := StatementBinds(s);
    assert Holds(binds, 0, binds);
    var l1 := SelectClauses(s.conds, s.order, s.limit, s.offset);
    ClausesRead(s.conds, s.order, s.limit, s.offset, binds);
    assert Tokens(Indent(GAP12, l1)) == Tokens(l1);
    var l2 := TableLayout(" ", s.schema, s.table, Indent(GAP12, l1));
    TableReads(" ", s.schema, s.table, Indent(GAP12, l1));
    assert Tokens(Tok(GAP12, Word("FROM"), l2)) == Cons(Word("FROM"), Tokens(l2));
    hide Holds, Tokens, StatementBinds, SelectClauses, TableLayout, ProjectionLayout, ReadClauses, ReadTable, ReadProjection, ValidNames, ValidConds;
    ProjectionReads(s.projection, SelectFrom(s.schema, s.table, l1));
  }

  lemma SelectReads(s: Statement)
    requires ValidStatement(s) && s.Select?
    ensures ReadStatement(Tokens(StatementLayout(s)), StatementBinds(s)) == Some(s)
  {
    hide Tokens, SelectClauses, SelectFrom, ProjectionLayout, SelectHead, ExpectJson, ReadSelectBody, StatementBinds, ValidConds;
    SelectBodyReads(s);
    SelectHeadReads(ProjectionLayout(s.projection,
      SelectFrom(s.schema, s.table, SelectClauses(s.conds, s.order, s.limit, s.offset))));
  }

  lemma SelectHeadReads(rest: Layout)
    ensures var r := ExpectJson(Tokens(SelectHead(rest)), "t");
      && r.Some?
      && r.value == Cons(Word("FROM"), Cons(Sym("("), Cons(Word("SELECT"), Tokens(rest))))
    ensures StartsWith(Tokens(SelectHead(rest)), Word("SELECT"))
  {
    var l1 := Tok(GAP12, Word("SELECT"), rest);
    var l2 := Tok(" ", Sym("("), l1);
    assert Tokens(l1) == Cons(Word("SELECT"), Tokens(rest));
    assert Tokens(l2) == Cons(Sym("("), Tokens(l1));
    JsonReads(GAP8, "t", Tok(GAP8, Word("FROM"), l2));
  }

  lemma InsertHeadReads(schema: string, table: string, rest: Layout)
    ensures var ts := Tokens(InsertHead(schema, table, rest));
      && var ts1 := ExpectOpen(ts, "ins");
      && ts1.Some?
      && var ts2 := ExpectWords(ts1.value, ["INSERT", "INTO"]);
      && ts2.Some?
      && ReadTable(ts2.value) == Some(((schema, table), Tokens(rest)))
      && StartsWith(ts, Word("WITH")) && StartsWith(ts.tail, Word("ins"))
  {
    var l1 := TableLayout(" ", schema, table, rest);
    TableReads(" ", schema, table, rest);
    WordsRead(GAP16, ["INSERT", "INTO"], l1);
    OpenReads(GAP12, "ins", WordsLayout(GAP16, ["INSERT", "INTO"], l1));
  }

  lemma InsertDefaultReads(s: Statement)
    requires ValidStatement(s) && s.InsertDefault?
    ensures ReadStatement(Tokens(StatementLayout(s)), StatementBinds(s)) == Some(s)
  {
    var l := WordsLayout(" ", ["DEFAULT", "VALUES"], InsertEnd());
    CloseReads(GAP16, GAP12, GAP12, "ins");
    assert StartsWith(Tokens(l), Word("DEFAULT"));
    DistinctKeywords();
    hide Tokens, InsertHead, InsertEnd, CloseLayout, IsClose, ExpectOpen, ExpectWords, ReadTable, WordsLayout;
    WordsRead(" ", ["DEFAULT", "VALUES"], InsertEnd());
    InsertHeadReads(s.schema, s.table, l);
  }

  lemma ValuesRead(columns: seq<string>, rows: seq<seq<Cell>>)
    requires columns != [] && ValidRows(rows)
    ensures var ts := Tokens(ValuesLayout(columns, rows));
      && StartsWith(ts, Sym("("))
      && var names := ReadNames(ts.tail);
      && names.Some? && names.value.0 == columns
      && StartsWith(names.value.1, Sym(")")) && StartsWith(names.value.1.tail, Word("VALUES"))
      && ReadRows(names.value.1.tail.tail, RowsBinds(rows)) == Some((rows, Tokens(InsertEnd())))
  {
    CloseReads(GAP16, GAP12, GAP12, "ins");
    var end := InsertEnd();
    assert Holds(RowsBinds(rows), 0, RowsBinds(rows));
    RowsRead(rows, 0, end, RowsBinds(rows));
    var l3 := RowsLayout(rows, 0, end);
    var l2 := Tok(GAP16, Word("VALUES"), l3);
    var l1 := Tok("", Sym(")"), l2);
    assert Tokens(l2) == Cons(Word("VALUES"), Tokens(l3));
    assert Tokens(l1) == Cons(Sym(")"), Tokens(l2));
    NamesRead("", columns, l1);
    hide RowsBinds, RowsLayout, NamesLayout, ReadRows, ReadNames, InsertEnd;
  }

  lemma InsertReads(s: Statement)
    requires ValidStatement(s) && s.Insert?
    ensures ReadStatement(Tokens(StatementLayout(s)), StatementBinds(s)) == Some(s)
  {
    CloseReads(GAP16, GAP12, GAP12, "ins");
    DistinctKeywords();
    assert "DEFAULT" != "(";
    hide Tokens, InsertHead, InsertEnd, CloseLayout, IsClose, ExpectOpen, ExpectWords, ReadTable, ValuesLayout, ReadRows,
      ReadNames, RowsBinds, ValidRows;
    ValuesRead(s.columns, s.rows);
    InsertHeadReads(s.schema, s.table, ValuesLayout(s.columns, s.rows));
  }

  lemma UpdateHeadReads(schema: string, table: string, rest: Layout)
    ensures var ts := Tokens(UpdateHead(schema, table, rest));
      && StartsWith(ts, Word("WITH")) && StartsWith(ts.tail, Word("updated"))
      && var ts1 := ExpectOpen(ts, "updated");
      && ts1.Some? && StartsWith(ts1.value, Word("UPDATE"))
      && ReadTable(ts1.value.tail) == Some(((schema, table), Cons(Word("SET"), Tokens(rest))))
  {
    var l2 := Tok(GAP12, Word("SET"), rest);
    var l3 := TableLayout(" ", schema, table, l2);
    assert Tokens(l2) == Cons(Word("SET"), Tokens(rest));
    TableReads(" ", schema, table, l2);
    OpenReads(GAP8, "updated", Tok(GAP12, Word("UPDATE"), l3));
    hide ExpectOpen, OpenLayout, ReadTable, TableLayout;
  }

  lemma WhereAndEndReads(conds: seq<Cond>, n: nat, end: Layout, binds: seq<string>)
    requires end.Tok? && Holds(binds, n, CondsBinds(conds)) && StartsWith(Tokens(end), Word("RETURNING"))
    ensures ReadWhere(Tokens(WhereAndEnd(conds, n, end)), binds) == Some((conds, Tokens(end)))
    ensures !StartsWith(Tokens(WhereAndEnd(conds, n, end)), Sym(","))
  {
    DistinctKeywords();
    WhereReads(conds, n, end, binds);
    var l := WhereLayout(conds, n, end);
    assert Tokens(Indent(GAP12, l)) == Tokens(l);
    hide ReadWhere, CondsLayout, Holds;
  }

  lemma UpdateEndReads()
    ensures IsClose(Tokens(UpdateEnd()), "updated") && StartsWith(Tokens(UpdateEnd()), Word("RETURNING"))
  {
    CloseReads(GAP12, GAP8, " ", "updated");
  }

  lemma UpdateReads(s: Statement)
    requires ValidStatement(s) && s.Update?
    ensures ReadStatement(Tokens(StatementLayout(s)), StatementBinds(s)) == Some(s)
  {
    var binds, k := StatementBinds(s), |SetsBinds(s.sets)|;
    assert binds == SetsBinds(s.sets) + CondsBinds(s.conds);
    hide Tokens, Holds, ReadDelete, ReadInsert, ReadSelect, CondsBinds, SetsBinds, UpdateEnd, CloseLayout, CloseText, IsClose,
      UpdateHead, ExpectOpen, ReadTable, SetsLayout, ReadSets, ReadWhere, StatementBinds, WhereAndEnd, ValidConds;
    HoldsAll(binds);
    HoldsSplit(binds, 0, SetsBinds(s.sets), CondsBinds(s.conds));
    UpdateEndReads();
    DistinctKeywords();
    var l0 := WhereAndEnd(s.conds, k, UpdateEnd());
    WhereAndEndReads(s.conds, k, UpdateEnd(), binds);
    SetsRead(s.sets, 0, l0, binds);
    UpdateHeadReads(s.schema, s.table, SetsLayout(s.sets, 0, l0));
  }

  lemma DeleteReads(s: Statement)
    requires ValidStatement(s) && s.Delete?
    ensures ReadStatement(Tokens(StatementLayout(s)), StatementBinds(s)) == Some(s)
  {
    var binds := StatementBinds(s);
    assert Holds(binds, 0, CondsBinds(s.conds));
    CloseReads(GAP12, GAP8, GAP8, "deleted");
    DistinctKeywords();
    hide Tokens, Holds, DeleteEnd, CloseLayout, IsClose, ExpectOpen, OpenLayout, ExpectWords, ReadTable, TableLayout,
      ReadWhere, WhereAndEnd, StatementBinds, ValidConds, WordsLayout;
    var l0 := WhereAndEnd(s.conds, 0, DeleteEnd());
    WhereAndEndReads(s.conds, 0, DeleteEnd(), binds);
    var l1 := TableLayout(" ", s.schema, s.table, l0);
    TableReads(" ", s.schema, s.table, l0);
    WordsRead(GAP12, ["DELETE", "FROM"], l1);
    OpenReads(GAP8, "deleted", WordsLayout(GAP12, ["DELETE", "FROM"], l1));
  }

  lemma StatementReads(s: Statement)
    requires ValidStatement(s)
    ensures ReadStatement(Tokens(StatementLayout(s)), StatementBinds(s)) == Some(s)
  {
    hide StatementLayout, StatementBinds, ReadStatement, Tokens, ValidStatement;
    match s
    case Select(_, _, _, _, _, _, _) => SelectReads(s);
    case InsertDefault(_, _) => InsertDefaultReads(s);
    case Insert(_, _, _, _) => InsertReads(s);
    case Update(_, _, _, _) => UpdateReads(s);
    case Delete(_, _, _) => DeleteReads(s);
  }

  /**
   * Every statement means itself: lexing and reading its text against its bound values gives it back,
   * and its placeholders are `$1` to `$n`, each once and in order.
   */
  lemma StatementDenotes(s: Statement)
    requires ValidStatement(s)
    ensures Denote(StatementText(s), StatementBinds(s)) == Some(s)
    ensures Lex(StatementText(s)).Some?
    ensures Placeholders(Lex(StatementText(s)).value) == seq(|StatementBinds(s)|, i => 1 + i)
  {
    hide StatementLayout, StatementText, StatementBinds, ReadStatement, Tokens, Spell, WellSpaced, Counts, ValidStatement, Lex, Placeholders;
    var l := StatementLayout(s);
    StatementLaid(s);
    LexSpell(l);
    CountsPlaceholders(l, 0, |StatementBinds(s)|);
    StatementReads(s);
  }
}
