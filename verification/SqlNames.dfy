/** The names a statement text can denote are stretches of the text between quotes. */
module SqlNames {
  import opened Wrappers
  import opened Text
  import opened Catalog
  import opened SqlTokens
  import opened SqlStatements
  import opened SqlFrames
  import opened SqlReader
  import opened Markers

  function QuotedNames(ts: TokenList): set<string> {
    match ts
    case Nil => {}
    case Cons(Quoted(n), rest) => {n} + QuotedNames(rest)
    case Cons(_, rest) => QuotedNames(rest)
  }

  lemma QuotedToken(s: string)
    requires s != "" && FirstToken(s).Some? && FirstToken(s).value.0.Quoted?
    ensures var n := FirstToken(s).value.0.name;
      '"' !in n && |n| + 2 <= |s| && s == s[..1] + n + s[|n| + 1..]
  {
  }

  /**
   * What the whitelist is for: an accepted identifier between quotes is read as one name, that very name,
   * whatever text follows, and neither replacement of a marker touches it.
   */
  lemma AcceptedIdentIsOneName(ident: string, rest: string)
    requires ValidateIdent(ident).Ok?
    requires rest == "" || rest[0] != '"'
    ensures Lex(QuoteName(ident) + rest) ==
      if Lex(rest).Some? then Some(Cons(Quoted(ident), Lex(rest).value)) else None
    ensures forall q, with | IsMark(q) :: Replace(QuoteName(ident), q, with) == QuoteName(ident)
  {
    var s := QuoteName(ident) + rest;
    assert '"' !in ident by {
      assert forall i | 0 <= i < |ident| :: IsWordChar(ident[i]);
    }
    QuotedSpelled(ident, rest);
    assert s[|ident| + 2..] == rest;
    NumberedName(ident);
    forall q, with | IsMark(q) ensures Replace(QuoteName(ident), q, with) == QuoteName(ident) {
      NumberedFree(QuoteName(ident), q);
      ReplaceFree(QuoteName(ident), q, with);
    }
  }

  /** A quoted name has no quote, and no marker that the text does not have. */
  lemma {:induction false} LexNames(s: string, q: string)
    requires Lex(s).Some?
    ensures forall n | n in QuotedNames(Lex(s).value) :: '"' !in n && (FreeOf(s, q) ==> FreeOf(n, q))
    decreases |s|
  {
    if s != "" {
      if IsSpace(s[0]) {
        LexNames(s[1..], q);
        if FreeOf(s, q) {
          FreeOfTail(s, q);
        }
      } else {
        var (t, k) := FirstToken(s).value;
        LexNames(s[k..], q);
        if FreeOf(s, q) {
          FreeOfDrop(s, q, k);
        }
        if t.Quoted? {
          QuotedToken(s);
          if FreeOf(s, q) {
            FreeOfPart(s[..1], t.name, s[|t.name| + 1..], q);
          }
        }
      }
    }
  }

  lemma {:induction false} WordsKeepNames(ts: TokenList, words: seq<string>)
    requires ExpectWords(ts, words).Some?
    ensures QuotedNames(ExpectWords(ts, words).value) <= QuotedNames(ts)
  {
    if words != [] {
      WordsKeepNames(ts.tail, words[1..]);
    }
  }

  lemma TailNames(ts: TokenList)
    requires ts.Cons?
    ensures QuotedNames(ts.tail) <= QuotedNames(ts)
    ensures ts.head.Quoted? ==> ts.head.name in QuotedNames(ts)
  {
  }

  lemma JsonKeepsNames(ts: TokenList, x: string)
    requires ExpectJson(ts, x).Some?
    ensures QuotedNames(ExpectJson(ts, x).value) <= QuotedNames(ts)
  {
    var ts0 := ExpectWords(ts, ["SELECT", "row_to_json"]).value;
    var ts1 := ExpectCall(ts, ["SELECT", "row_to_json"], x).value;
    hide ExpectWords, QuotedNames;
    WordsKeepNames(ts, ["SELECT", "row_to_json"]);
    assert ts1 == ts0.tail.tail.tail;
    TailNames(ts0);
    TailNames(ts0.tail);
    TailNames(ts0.tail.tail);
    WordsKeepNames(ts1, ["AS", "data"]);
  }

  lemma OpenKeepsNames(ts: TokenList, x: string)
    requires ExpectOpen(ts, x).Some?
    ensures QuotedNames(ExpectOpen(ts, x).value) <= QuotedNames(ts)
  {
    hide ExpectWords;
    WordsKeepNames(ts, ["WITH", x, "AS"]);
  }

  lemma {:induction false} NamesKeepNames(ts: TokenList)
    requires ReadNames(ts).Some?
    ensures QuotedNames(ReadNames(ts).value.1) <= QuotedNames(ts)
    decreases ts
  {
    if StartsWith(ts.tail, Sym(",")) {
      NamesKeepNames(ts.tail.tail);
    }
  }

  lemma TableNamed(ts: TokenList)
    requires ReadTable(ts).Some?
    ensures var (schema, table) := ReadTable(ts).value.0; schema in QuotedNames(ts) && table in QuotedNames(ts)
  {
    TailNames(ts);
    TailNames(ts.tail);
    TailNames(ts.tail.tail);
  }

  lemma SelectBodyNamed(ts: TokenList, binds: seq<string>)
    requires ReadSelectBody(ts, binds).Some?
    ensures var s := ReadSelectBody(ts, binds).value; s.schema in QuotedNames(ts) && s.table in QuotedNames(ts)
  {
    hide ReadNames, ReadTable, ReadClauses, QuotedNames;
    var ts1 := ReadProjection(ts).value.1;
    if StartsWith(ts, Sym("*")) {
      TailNames(ts);
    } else {
      NamesKeepNames(ts);
    }
    TailNames(ts1);
    TableNamed(ts1.tail);
  }

  lemma SelectNamed(ts: TokenList, binds: seq<string>)
    requires ReadSelect(ts, binds).Some?
    ensures var s := ReadSelect(ts, binds).value; s.schema in QuotedNames(ts) && s.table in QuotedNames(ts)
  {
    hide ExpectJson, ReadSelectBody, QuotedNames;
    JsonKeepsNames(ts, "t");
    var ts1 := ExpectJson(ts, "t").value;
    TailNames(ts1);
    TailNames(ts1.tail);
    TailNames(ts1.tail.tail);
    SelectBodyNamed(ts1.tail.tail.tail, binds);
  }

  lemma InsertNamed(ts: TokenList, binds: seq<string>)
    requires ReadInsert(ts, binds).Some?
    ensures var s := ReadInsert(ts, binds).value; s.schema in QuotedNames(ts) && s.table in QuotedNames(ts)
  {
    hide ExpectOpen, ExpectWords, ReadTable, ReadNames, ReadRows, IsClose;
    OpenKeepsNames(ts, "ins");
    var ts1 := ExpectOpen(ts, "ins").value;
    WordsKeepNames(ts1, ["INSERT", "INTO"]);
    TableNamed(ExpectWords(ts1, ["INSERT", "INTO"]).value);
  }

  lemma UpdateNamed(ts: TokenList, binds: seq<string>)
    requires ReadUpdate(ts, binds).Some?
    ensures var s := ReadUpdate(ts, binds).value; s.schema in QuotedNames(ts) && s.table in QuotedNames(ts)
  {
    hide ExpectOpen, ReadTable, ReadSets, ReadWhere, IsClose;
    OpenKeepsNames(ts, "updated");
    TableNamed(ExpectOpen(ts, "updated").value.tail);
  }

  lemma DeleteNamed(ts: TokenList, binds: seq<string>)
    requires ReadDelete(ts, binds).Some?
    ensures var s := ReadDelete(ts, binds).value; s.schema in QuotedNames(ts) && s.table in QuotedNames(ts)
  {
    hide ExpectOpen, ExpectWords, ReadTable, ReadWhere, IsClose;
    OpenKeepsNames(ts, "deleted");
    var ts1 := ExpectOpen(ts, "deleted").value;
    WordsKeepNames(ts1, ["DELETE", "FROM"]);
    TableNamed(ExpectWords(ts1, ["DELETE", "FROM"]).value);
  }

  /** A text without `q` denotes no statement on a table whose quoted name has `q` or a quote in it. */
  lemma DenotedNames(sql: string, binds: seq<string>, q: string)
    requires Denote(sql, binds).Some?
    ensures var s := Denote(sql, binds).value;
      && ValidName(s.schema) && ValidName(s.table)
      && (FreeOf(sql, q) ==> FreeOf(s.schema, q) && FreeOf(s.table, q))
  {
    hide Lex, ReadSelect, ReadInsert, ReadUpdate, ReadDelete, FreeOf;
    var ts := Lex(sql).value;
    LexNames(sql, q);
    if StartsWith(ts, Word("SELECT")) {
      SelectNamed(ts, binds);
    } else if ts.Cons? && StartsWith(ts.tail, Word("ins")) {
      InsertNamed(ts, binds);
    } else if ts.Cons? && StartsWith(ts.tail, Word("updated")) {
      UpdateNamed(ts, binds);
    } else {
      DeleteNamed(ts, binds);
    }
  }

  /** A valid statement, but for the names of its table. */
  predicate ValidParts(s: Statement) {
    ValidStatement(s.(schema := "", table := ""))
  }

  /** Without a quote in the table's names the text means the statement, and with one it cannot. */
  lemma MeansItself(s: Statement)
    requires ValidParts(s)
    ensures Denote(StatementText(s), StatementBinds(s)) == Some(s) <==> ValidName(s.schema) && ValidName(s.table)
  {
    hide Denote, StatementText, StatementBinds;
    if ValidName(s.schema) && ValidName(s.table) {
      assert ValidStatement(s);
      hide ValidStatement;
      StatementDenotes(s);
    } else if Denote(StatementText(s), StatementBinds(s)).Some? {
      DenotedNames(StatementText(s), StatementBinds(s), "");
    }
  }
}
