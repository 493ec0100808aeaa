/**
 * The statements the builders emit: their abstract syntax and the layout they are written in.
 * A layout function takes the layout of what follows, so that parts compose without concatenation.
 */
module SqlStatements {
  import opened Wrappers
  import opened Text
  import opened Catalog
  import opened SqlTokens

  datatype CompareOp = Equal | NotEqual | Greater | GreaterEqual | Less | LessEqual | LikeOp | ILikeOp

  /** A condition; `text` is the value bound to its placeholder, `cast` the type it is cast to. */
  datatype Cond =
    | Compare(column: string, op: CompareOp, text: string, cast: string)
    | IsNull(column: string)
    | IsNotNull(column: string)

  datatype Cell = DefaultCell | NullCell | Bound(text: string, cast: string)

  datatype Assignment = Assignment(column: string, cell: Cell)

  datatype Projection = AllColumns | Columns(names: seq<string>)

  datatype Statement =
    | Select(schema: string, table: string, projection: Projection, conds: seq<Cond>,
             order: Option<(string, bool)>, limit: Option<string>, offset: Option<string>)
    | InsertDefault(schema: string, table: string)
    | Insert(schema: string, table: string, columns: seq<string>, rows: seq<seq<Cell>>)
    | Update(schema: string, table: string, sets: seq<Assignment>, conds: seq<Cond>)
    | Delete(schema: string, table: string, conds: seq<Cond>)

  // ---------------------------------------------------------------- bound values, in order

  function CondBinds(c: Cond): seq<string> {
    if c.Compare? then [c.text] else []
  }

  function CondsBinds(cs: seq<Cond>): seq<string> {
    if cs == [] then [] else CondBinds(cs[0]) + CondsBinds(cs[1..])
  }

  function CellBinds(c: Cell): seq<string> {
    if c.Bound? then [c.text] else []
  }

  function CellsBinds(cs: seq<Cell>): seq<string> {
    if cs == [] then [] else CellBinds(cs[0]) + CellsBinds(cs[1..])
  }

  function RowsBinds(rows: seq<seq<Cell>>): seq<string> {
    if rows == [] then [] else CellsBinds(rows[0]) + RowsBinds(rows[1..])
  }

  function SetsBinds(sets: seq<Assignment>): seq<string> {
    if sets == [] then [] else CellBinds(sets[0].cell) + SetsBinds(sets[1..])
  }

  function OptionBinds(o: Option<string>): seq<string> {
    if o.Some? then [o.value] else []
  }

  function StatementBinds(s: Statement): seq<string> {
    match s
    case Select(_, _, _, conds, _, limit, offset) => CondsBinds(conds) + (OptionBinds(limit) + OptionBinds(offset))
    case InsertDefault(_, _) => []
    case Insert(_, _, _, rows) => RowsBinds(rows)
    case Update(_, _, sets, conds) => SetsBinds(sets) + CondsBinds(conds)
    case Delete(_, _, conds) => CondsBinds(conds)
  }

  // ---------------------------------------------------------------- validity

  predicate ValidName(c: string) {
    '"' !in c
  }

  predicate ValidCell(c: Cell) {
    c.Bound? ==> IsIdent(c.cast)
  }

  predicate ValidCond(c: Cond) {
    ValidName(c.column) && (c.Compare? ==> IsIdent(c.cast))
  }

  predicate ValidConds(cs: seq<Cond>) {
    forall i | 0 <= i < |cs| :: ValidCond(cs[i])
  }

  predicate ValidNames(names: seq<string>) {
    names != [] && forall i | 0 <= i < |names| :: ValidName(names[i])
  }

  predicate ValidCells(cs: seq<Cell>) {
    cs != [] && forall i | 0 <= i < |cs| :: ValidCell(cs[i])
  }

  predicate ValidRows(rows: seq<seq<Cell>>) {
    rows != [] && forall i | 0 <= i < |rows| :: ValidCells(rows[i])
  }

  predicate ValidSets(sets: seq<Assignment>) {
    sets != [] && forall i | 0 <= i < |sets| :: ValidName(sets[i].column) && ValidCell(sets[i].cell)
  }

  /** The statement can be written down: no quote in a name, casts are identifiers, no empty list. */
  predicate ValidStatement(s: Statement) {
    && ValidName(s.schema)
    && ValidName(s.table)
    && match s
       case Select(_, _, projection, conds, order, _, _) =>
         && (projection.Columns? ==> ValidNames(projection.names))
         && ValidConds(conds)
         && (order.Some? ==> ValidName(order.value.0))
       case InsertDefault(_, _) => true
       case Insert(_, _, columns, rows) => ValidNames(columns) && ValidRows(rows)
       case Update(_, _, sets, conds) => ValidSets(sets) && ValidConds(conds)
       case Delete(_, _, conds) => ValidConds(conds)
  }

  // ---------------------------------------------------------------- layout

  function OpToken(op: CompareOp): (t: Token)
    ensures ValidToken(t) && !t.Param?
  {
    match op
    case Equal => Sym("=")
    case NotEqual => Sym("<>")
    case Greater => Sym(">")
    case GreaterEqual => Sym(">=")
    case Less => Sym("<")
    case LessEqual => Sym("<=")
    case LikeOp => Word("LIKE")
    case ILikeOp => Word("ILIKE")
  }

  /** `$(n+1)::cast` */
  function BoundLayout(gap: string, cast: string, n: nat, rest: Layout): (l: Layout)
    ensures l.Tok? && l.gap == gap
  {
    Tok(gap, Param(n + 1), Tok("", Sym("::"), Tok("", Word(cast), rest)))
  }

  function CondLayout(gap: string, c: Cond, n: nat, rest: Layout): (l: Layout)
    ensures l.Tok? && l.gap == gap
  {
    match c
    case Compare(col, op, _, cast) => Tok(gap, Quoted(col), Tok(" ", OpToken(op), BoundLayout(" ", cast, n, rest)))
    case IsNull(col) => Tok(gap, Quoted(col), Tok(" ", Word("IS"), Tok(" ", Word("NULL"), rest)))
    case IsNotNull(col) =>
      Tok(gap, Quoted(col), Tok(" ", Word("IS"), Tok(" ", Word("NOT"), Tok(" ", Word("NULL"), rest))))
  }

  function CondsLayout(cs: seq<Cond>, n: nat, rest: Layout): (l: Layout)
    requires cs != []
    ensures l.Tok? && l.gap == " "
  {
    CondLayout(" ", cs[0], n,
      if |cs| == 1 then rest
      else Tok(" ", Word("AND"), CondsLayout(cs[1..], n + |CondBinds(cs[0])|, rest)))
  }

  function NamesLayout(gap: string, names: seq<string>, rest: Layout): (l: Layout)
    requires names != []
    ensures l.Tok? && l.gap == gap
    decreases |names|
  {
    Tok(gap, Quoted(names[0]),
      if |names| == 1 then rest else Tok("", Sym(","), NamesLayout(" ", names[1..], rest)))
  }

  function CellLayout(gap: string, c: Cell, n: nat, rest: Layout): (l: Layout)
    ensures l.Tok? && l.gap == gap
  {
    match c
    case DefaultCell => Tok(gap, Word("DEFAULT"), rest)
    case NullCell => Tok(gap, Word("NULL"), rest)
    case Bound(_, cast) => BoundLayout(gap, cast, n, rest)
  }

  function CellsLayout(gap: string, cs: seq<Cell>, n: nat, rest: Layout): (l: Layout)
    requires cs != []
    ensures l.Tok? && l.gap == gap
    decreases |cs|
  {
    CellLayout(gap, cs[0], n,
      if |cs| == 1 then rest
      else Tok("", Sym(","), CellsLayout(" ", cs[1..], n + |CellBinds(cs[0])|, rest)))
  }

  function TupleLayout(cs: seq<Cell>, n: nat, rest: Layout): (l: Layout)
    requires cs != []
    ensures l.Tok? && l.gap == " "
  {
    Tok(" ", Sym("("), CellsLayout("", cs, n, Tok("", Sym(")"), rest)))
  }

  function RowsLayout(rows: seq<seq<Cell>>, n: nat, rest: Layout): (l: Layout)
    requires ValidRows(rows)
    ensures l.Tok? && l.gap == " "
  {
    TupleLayout(rows[0], n,
      if |rows| == 1 then rest
      else Tok("", Sym(","), RowsLayout(rows[1..], n + |CellsBinds(rows[0])|, rest)))
  }

  function SetsLayout(sets: seq<Assignment>, n: nat, rest: Layout): (l: Layout)
    requires sets != []
    ensures l.Tok? && l.gap == " "
  {
    Tok(" ", Quoted(sets[0].column), Tok(" ", Sym("="), CellLayout(" ", sets[0].cell, n,
      if |sets| == 1 then rest
      else Tok("", Sym(","), SetsLayout(sets[1..], n + |CellBinds(sets[0].cell)|, rest)))))
  }

  // ---------------------------------------------------------------- texts

  function QuoteName(c: string): string {
    "\"" + c + "\""
  }

  function BoundText(cast: string, n: nat): string {
    "$" + Dec(n + 1) + "::" + cast
  }

  function CondText(c: Cond, n: nat): string {
    match c
    case Compare(col, op, _, cast) => QuoteName(col) + " " + TokenText(OpToken(op)) + " " + BoundText(cast, n)
    case IsNull(col) => QuoteName(col) + " IS NULL"
    case IsNotNull(col) => QuoteName(col) + " IS NOT NULL"
  }

  function CellText(c: Cell, n: nat): string {
    match c
    case DefaultCell => "DEFAULT"
    case NullCell => "NULL"
    case Bound(_, cast) => BoundText(cast, n)
  }

  function SetText(s: Assignment, n: nat): string {
    QuoteName(s.column) + " = " + CellText(s.cell, n)
  }

  // ---------------------------------------------------------------- layouts are readable and numbered

  /** A layout that can be read back and whose placeholders are `$(n+1)` to `$m`. */
  predicate Laid(l: Layout, n: nat, m: nat) {
    WellSpaced(l) && Counts(l, n, m)
  }

  /** What every layout function needs of the layout that follows it. */
  predicate Ready(rest: Layout, n: nat, m: nat) {
    Laid(rest, n, m) && Detached(rest)
  }

  lemma TokLaid(gap: string, t: Token, rest: Layout, n: nat, m: nat)
    requires ValidToken(t) && !t.Param? && AllSpace(gap) && Laid(rest, n, m)
    requires Detached(rest) || Tight(t, rest.token)
    ensures Laid(Tok(gap, t, rest), n, m)
  {
  }

  lemma BoundLaid(gap: string, cast: string, n: nat, rest: Layout, m: nat)
    requires AllSpace(gap) && IsIdent(cast) && Ready(rest, n + 1, m)
    ensures Laid(BoundLayout(gap, cast, n, rest), n, m)
  {
    TokLaid("", Word(cast), rest, n + 1, m);
    TokLaid("", Sym("::"), Tok("", Word(cast), rest), n + 1, m);
  }

  lemma CondLaid(gap: string, c: Cond, n: nat, rest: Layout, m: nat)
    requires AllSpace(gap) && ValidCond(c) && Ready(rest, n + |CondBinds(c)|, m)
    ensures Laid(CondLayout(gap, c, n, rest), n, m)
  {
    match c
    case Compare(col, op, _, cast) =>
      BoundLaid(" ", cast, n, rest, m);
      TokLaid(" ", OpToken(op), BoundLayout(" ", cast, n, rest), n, m);
      TokLaid(gap, Quoted(col), Tok(" ", OpToken(op), BoundLayout(" ", cast, n, rest)), n, m);
    case IsNull(col) =>
      var l := Tok(" ", Word("NULL"), rest);
      TokLaid(" ", Word("IS"), l, n, m);
      TokLaid(gap, Quoted(col), Tok(" ", Word("IS"), l), n, m);
    case IsNotNull(col) =>
      var l := Tok(" ", Word("NOT"), Tok(" ", Word("NULL"), rest));
      TokLaid(" ", Word("IS"), l, n, m);
      TokLaid(gap, Quoted(col), Tok(" ", Word("IS"), l), n, m);
  }

  lemma BoundSpelled(gap: string, cast: string, n: nat, rest: Layout)
    ensures Spell(BoundLayout(gap, cast, n, rest)) == gap + BoundText(cast, n) + Spell(rest)
  {
    var l := Tok("", Sym("::"), Tok("", Word(cast), rest));
    assert Spell(l) == "::" + cast + Spell(rest);
  }

  lemma OneSpelled(gap: string, t: Token, rest: Layout)
    ensures Spell(Tok(gap, t, rest)) == gap + TokenText(t) + Spell(rest)
  {
  }

  lemma TwoSpelled(g1: string, t1: Token, g2: string, t2: Token, rest: Layout)
    ensures Spell(Tok(g1, t1, Tok(g2, t2, rest))) == g1 + TokenText(t1) + g2 + TokenText(t2) + Spell(rest)
  {
    assert Spell(Tok(g2, t2, rest)) == g2 + TokenText(t2) + Spell(rest);
  }

  lemma CompareSpelled(gap: string, c: Cond, n: nat, rest: Layout)
    requires c.Compare?
    ensures Spell(CondLayout(gap, c, n, rest)) == gap + CondText(c, n) + Spell(rest)
  {
    assert TokenText(Quoted(c.column)) == QuoteName(c.column);
    hide Spell, TokenText;
    TwoSpelled(gap, Quoted(c.column), " ", OpToken(c.op), BoundLayout(" ", c.cast, n, rest));
    BoundSpelled(" ", c.cast, n, rest);
  }

  lemma NullSpelled(gap: string, col: string, rest: Layout)
    ensures Spell(CondLayout(gap, IsNull(col), 0, rest)) == gap + (QuoteName(col) + " IS NULL") + Spell(rest)
  {
    var l := Tok(" ", Word("NULL"), rest);
    assert Spell(l) == " NULL" + Spell(rest);
    assert TokenText(Quoted(col)) == QuoteName(col) && TokenText(Word("IS")) == "IS";
    hide Spell, TokenText, QuoteName;
    TwoSpelled(gap, Quoted(col), " ", Word("IS"), l);
  }

  lemma NotNullSpelled(gap: string, col: string, rest: Layout)
    ensures Spell(CondLayout(gap, IsNotNull(col), 0, rest)) == gap + (QuoteName(col) + " IS NOT NULL") + Spell(rest)
  {
    var l := Tok(" ", Word("NOT"), Tok(" ", Word("NULL"), rest));
    assert TokenText(Quoted(col)) == QuoteName(col) && TokenText(Word("IS")) == "IS";
    assert TokenText(Word("NOT")) == "NOT" && TokenText(Word("NULL")) == "NULL";
    hide Spell, TokenText, QuoteName;
    TwoSpelled(" ", Word("NOT"), " ", Word("NULL"), rest);
    assert " " + "NOT" + " " + "NULL" == " NOT NULL";
    assert Spell(l) == " NOT NULL" + Spell(rest);
    TwoSpelled(gap, Quoted(col), " ", Word("IS"), l);
  }

  lemma CondSpelled(gap: string, c: Cond, n: nat, rest: Layout)
    ensures Spell(CondLayout(gap, c, n, rest)) == gap + CondText(c, n) + Spell(rest)
  {
    hide Spell, TokenText;
    match c
    case Compare(_, _, _, _) => CompareSpelled(gap, c, n, rest);
    case IsNull(col) => NullSpelled(gap, col, rest);
    case IsNotNull(col) => NotNullSpelled(gap, col, rest);
  }

  // ---------------------------------------------------------------- lists

  lemma {:induction false} CondsLaid(cs: seq<Cond>, n: nat, rest: Layout, m: nat)
    requires cs != [] && ValidConds(cs) && Ready(rest, n + |CondsBinds(cs)|, m)
    ensures Laid(CondsLayout(cs, n, rest), n, m)
  {
    hide Laid, CondLayout, CondBinds;
    var k := n + |CondBinds(cs[0])|;
    if |cs| == 1 {
      assert CondsBinds(cs[1..]) == [];
      CondLaid(" ", cs[0], n, rest, m);
    } else {
      CondsLaid(cs[1..], k, rest, m);
      var l := CondsLayout(cs[1..], k, rest);
      TokLaid(" ", Word("AND"), l, k, m);
      CondLaid(" ", cs[0], n, Tok(" ", Word("AND"), l), m);
    }
  }

  lemma {:induction false} NamesLaid(gap: string, names: seq<string>, rest: Layout, n: nat, m: nat)
    requires ValidNames(names) && AllSpace(gap) && Ready(rest, n, m)
    ensures Laid(NamesLayout(gap, names, rest), n, m)
    decreases |names|
  {
    hide Laid;
    if |names| == 1 {
      TokLaid(gap, Quoted(names[0]), rest, n, m);
    } else {
      NamesLaid(" ", names[1..], rest, n, m);
      var l := Tok("", Sym(","), NamesLayout(" ", names[1..], rest));
      TokLaid("", Sym(","), NamesLayout(" ", names[1..], rest), n, m);
      TokLaid(gap, Quoted(names[0]), l, n, m);
    }
  }

  lemma CellLaid(gap: string, c: Cell, n: nat, rest: Layout, m: nat)
    requires AllSpace(gap) && ValidCell(c) && Ready(rest, n + |CellBinds(c)|, m)
    ensures Laid(CellLayout(gap, c, n, rest), n, m)
  {
    hide Laid;
    match c
    case DefaultCell => TokLaid(gap, Word("DEFAULT"), rest, n, m);
    case NullCell => TokLaid(gap, Word("NULL"), rest, n, m);
    case Bound(_, cast) => BoundLaid(gap, cast, n, rest, m);
  }

  lemma {:induction false} CellsLaid(gap: string, cs: seq<Cell>, n: nat, rest: Layout, m: nat)
    requires AllSpace(gap) && ValidCells(cs) && Ready(rest, n + |CellsBinds(cs)|, m)
    ensures Laid(CellsLayout(gap, cs, n, rest), n, m)
    decreases |cs|
  {
    hide Laid, CellLayout, CellBinds;
    var k := n + |CellBinds(cs[0])|;
    if |cs| == 1 {
      assert CellsBinds(cs[1..]) == [];
      CellLaid(gap, cs[0], n, rest, m);
    } else {
      CellsLaid(" ", cs[1..], k, rest, m);
      var l := CellsLayout(" ", cs[1..], k, rest);
      TokLaid("", Sym(","), l, k, m);
      CellLaid(gap, cs[0], n, Tok("", Sym(","), l), m);
    }
  }

  lemma TupleLaid(cs: seq<Cell>, n: nat, rest: Layout, m: nat)
    requires ValidCells(cs) && Ready(rest, n + |CellsBinds(cs)|, m)
    ensures Laid(TupleLayout(cs, n, rest), n, m)
  {
    hide Laid, CellsLayout;
    var l := Tok("", Sym(")"), rest);
    TokLaid("", Sym(")"), rest, n + |CellsBinds(cs)|, m);
    CellsLaid("", cs, n, l, m);
    TokLaid(" ", Sym("("), CellsLayout("", cs, n, l), n, m);
  }

  lemma {:induction false} RowsLaid(rows: seq<seq<Cell>>, n: nat, rest: Layout, m: nat)
    requires ValidRows(rows) && Ready(rest, n + |RowsBinds(rows)|, m)
    ensures Laid(RowsLayout(rows, n, rest), n, m)
  {
    hide Laid, TupleLayout, CellsBinds;
    var k := n + |CellsBinds(rows[0])|;
    if |rows| == 1 {
      assert RowsBinds(rows[1..]) == [];
      TupleLaid(rows[0], n, rest, m);
    } else {
      RowsLaid(rows[1..], k, rest, m);
      var l := RowsLayout(rows[1..], k, rest);
      TokLaid("", Sym(","), l, k, m);
      TupleLaid(rows[0], n, Tok("", Sym(","), l), m);
    }
  }

  lemma {:induction false} SetsLaid(sets: seq<Assignment>, n: nat, rest: Layout, m: nat)
    requires ValidSets(sets) && Ready(rest, n + |SetsBinds(sets)|, m)
    ensures Laid(SetsLayout(sets, n, rest), n, m)
  {
    hide Laid, CellLayout, CellBinds;
    var c, k := sets[0].cell, n + |CellBinds(sets[0].cell)|;
    var tail := rest;
    if |sets| == 1 {
      assert SetsBinds(sets[1..]) == [];
    } else {
      SetsLaid(sets[1..], k, rest, m);
      tail := Tok("", Sym(","), SetsLayout(sets[1..], k, rest));
      TokLaid("", Sym(","), SetsLayout(sets[1..], k, rest), k, m);
    }
    CellLaid(" ", c, n, tail, m);
    TokLaid(" ", Sym("="), CellLayout(" ", c, n, tail), n, m);
    TokLaid(" ", Quoted(sets[0].column), Tok(" ", Sym("="), CellLayout(" ", c, n, tail)), n, m);
  }

  // ---------------------------------------------------------------- texts of lists

  function CondTexts(cs: seq<Cond>, n: nat): (ts: seq<string>)
    ensures |ts| == |cs|
  {
    if cs == [] then [] else [CondText(cs[0], n)] + CondTexts(cs[1..], n + |CondBinds(cs[0])|)
  }

  function NameTexts(names: seq<string>): (ts: seq<string>)
    ensures |ts| == |names|
  {
    if names == [] then [] else [QuoteName(names[0])] + NameTexts(names[1..])
  }

  lemma {:induction false} NameTextsSnoc(names: seq<string>, c: string)
    ensures NameTexts(names + [c]) == NameTexts(names) + [QuoteName(c)]
  {
    if names == [] {
      assert [c][1..] == [];
    } else {
      NameTextsSnoc(names[1..], c);
      assert (names + [c])[1..] == names[1..] + [c];
    }
  }

  function CellTexts(cs: seq<Cell>, n: nat): (ts: seq<string>)
    ensures |ts| == |cs|
  {
    if cs == [] then [] else [CellText(cs[0], n)] + CellTexts(cs[1..], n + |CellBinds(cs[0])|)
  }

  function TupleText(cs: seq<Cell>, n: nat): string {
    "(" + Join(CellTexts(cs, n), ", ") + ")"
  }

  function RowTexts(rows: seq<seq<Cell>>, n: nat): (ts: seq<string>)
    ensures |ts| == |rows|
  {
    if rows == [] then [] else [TupleText(rows[0], n)] + RowTexts(rows[1..], n + |CellsBinds(rows[0])|)
  }

  function SetTexts(sets: seq<Assignment>, n: nat): (ts: seq<string>)
    ensures |ts| == |sets|
  {
    if sets == [] then [] else [SetText(sets[0], n)] + SetTexts(sets[1..], n + |CellBinds(sets[0].cell)|)
  }

  /** The text of a list grows by one item in front. */
  lemma ListSeam(all: string, gap: string, head: string, sep: string, mid: string, joined: string, tail: seq<string>,
                 rest: string)
    requires tail != []
    requires all == gap + head + mid
    requires mid == sep + (" " + Join(tail, sep + " ") + rest)
    requires joined == Join([head] + tail, sep + " ")
    ensures all == gap + joined + rest
  {
    assert ([head] + tail)[1..] == tail;
    assert joined == head + (sep + " ") + Join(tail, sep + " ");
    hide Join;
  }

  lemma {:induction false} JoinOne(head: string, sep: string)
    ensures Join([head], sep) == head
  {
  }

  lemma {:induction false} CondsSpelled(cs: seq<Cond>, n: nat, rest: Layout)
    requires cs != []
    ensures Spell(CondsLayout(cs, n, rest)) == " " + Join(CondTexts(cs, n), " " + "AND" + " ") + Spell(rest)
  {
    assert TokenText(Word("AND")) == "AND";
    hide Spell, CondText, CondLayout, Join, TokenText, CondBinds;
    var k := n + |CondBinds(cs[0])|;
    var head := CondText(cs[0], n);
    if |cs| == 1 {
      CondSpelled(" ", cs[0], n, rest);
      JoinOne(head, " " + "AND" + " ");
    } else {
      var l, tail := CondsLayout(cs[1..], k, rest), CondTexts(cs[1..], k);
      var mid := Tok(" ", Word("AND"), l);
      CondSpelled(" ", cs[0], n, mid);
      CondsSpelled(cs[1..], k, rest);
      OneSpelled(" ", Word("AND"), l);
      assert CondTexts(cs, n) == [head] + tail;
      assert CondsLayout(cs, n, rest) == CondLayout(" ", cs[0], n, mid);
      hide CondsLayout, CondTexts;
      ListSeam(Spell(CondsLayout(cs, n, rest)), " ", head, " " + "AND", Spell(mid),
               Join(CondTexts(cs, n), " " + "AND" + " "), tail, Spell(rest));
    }
  }

  lemma {:induction false} NamesSpelled(gap: string, names: seq<string>, rest: Layout)
    requires names != []
    ensures Spell(NamesLayout(gap, names, rest)) == gap + Join(NameTexts(names), "," + " ") + Spell(rest)
    decreases |names|
  {
    assert TokenText(Sym(",")) == "," && TokenText(Quoted(names[0])) == QuoteName(names[0]);
    hide Spell, Join, TokenText, QuoteName;
    var head := QuoteName(names[0]);
    if |names| == 1 {
      OneSpelled(gap, Quoted(names[0]), rest);
      JoinOne(head, "," + " ");
    } else {
      var l, tail := NamesLayout(" ", names[1..], rest), NameTexts(names[1..]);
      var mid := Tok("", Sym(","), l);
      OneSpelled(gap, Quoted(names[0]), mid);
      NamesSpelled(" ", names[1..], rest);
      OneSpelled("", Sym(","), l);
      assert NameTexts(names) == [head] + tail;
      assert NamesLayout(gap, names, rest) == Tok(gap, Quoted(names[0]), mid);
      hide NamesLayout, NameTexts;
      ListSeam(Spell(NamesLayout(gap, names, rest)), gap, head, ",", Spell(mid),
               Join(NameTexts(names), "," + " "), tail, Spell(rest));
    }
  }

  lemma CellSpelled(gap: string, c: Cell, n: nat, rest: Layout)
    ensures Spell(CellLayout(gap, c, n, rest)) == gap + CellText(c, n) + Spell(rest)
  {
    match c
    case Bound(_, cast) => BoundSpelled(gap, cast, n, rest);
    case DefaultCell => OneSpelled(gap, Word("DEFAULT"), rest);
    case NullCell => OneSpelled(gap, Word("NULL"), rest);
  }

  lemma {:induction false} CellsSpelled(gap: string, cs: seq<Cell>, n: nat, rest: Layout)
    requires cs != []
    ensures Spell(CellsLayout(gap, cs, n, rest)) == gap + Join(CellTexts(cs, n), "," + " ") + Spell(rest)
    decreases |cs|
  {
    assert TokenText(Sym(",")) == ",";
    hide Spell, Join, TokenText, CellText, CellLayout, CellBinds;
    var k := n + |CellBinds(cs[0])|;
    var head := CellText(cs[0], n);
    if |cs| == 1 {
      CellSpelled(gap, cs[0], n, rest);
      JoinOne(head, "," + " ");
    } else {
      var l, tail := CellsLayout(" ", cs[1..], k, rest), CellTexts(cs[1..], k);
      var mid := Tok("", Sym(","), l);
      CellSpelled(gap, cs[0], n, mid);
      CellsSpelled(" ", cs[1..], k, rest);
      OneSpelled("", Sym(","), l);
      assert CellTexts(cs, n) == [head] + tail;
      assert CellsLayout(gap, cs, n, rest) == CellLayout(gap, cs[0], n, mid);
      hide CellsLayout, CellTexts;
      ListSeam(Spell(CellsLayout(gap, cs, n, rest)), gap, head, ",", Spell(mid),
               Join(CellTexts(cs, n), "," + " "), tail, Spell(rest));
    }
  }

  lemma TupleSpelled(cs: seq<Cell>, n: nat, rest: Layout)
    requires cs != []
    ensures Spell(TupleLayout(cs, n, rest)) == " " + TupleText(cs, n) + Spell(rest)
  {
    assert TokenText(Sym("(")) == "(" && TokenText(Sym(")")) == ")";
    assert "," + " " == ", ";
    hide Spell, Join, TokenText, CellTexts, CellsLayout;
    var l := Tok("", Sym(")"), rest);
    var inner := CellsLayout("", cs, n, l);
    OneSpelled("", Sym(")"), rest);
    CellsSpelled("", cs, n, l);
    assert Spell(inner) == Join(CellTexts(cs, n), ", ") + ")" + Spell(rest);
    OneSpelled(" ", Sym("("), inner);
  }

  lemma RowsSpelledStep(rows: seq<seq<Cell>>, n: nat, k: nat, rest: Layout)
    requires ValidRows(rows) && |rows| > 1 && ValidRows(rows[1..]) && k == n + |CellsBinds(rows[0])|
    requires Spell(RowsLayout(rows[1..], k, rest)) == " " + Join(RowTexts(rows[1..], k), "," + " ") + Spell(rest)
    ensures Spell(RowsLayout(rows, n, rest)) == " " + Join(RowTexts(rows, n), "," + " ") + Spell(rest)
  {
    assert rows[0] != [] && TokenText(Sym(",")) == ",";
    var l, tail := RowsLayout(rows[1..], k, rest), RowTexts(rows[1..], k);
    var mid, head := Tok("", Sym(","), l), TupleText(rows[0], n);
    hide Spell, Join, TokenText, TupleText, TupleLayout, CellsBinds, ValidRows;
    assert RowTexts(rows, n) == [head] + tail;
    assert RowsLayout(rows, n, rest) == TupleLayout(rows[0], n, mid);
    hide RowsLayout, RowTexts;
    TupleSpelled(rows[0], n, mid);
    OneSpelled("", Sym(","), l);
    ListSeam(Spell(RowsLayout(rows, n, rest)), " ", head, ",", Spell(mid),
             Join(RowTexts(rows, n), "," + " "), tail, Spell(rest));
  }

  lemma {:induction false} RowsSpelled(rows: seq<seq<Cell>>, n: nat, rest: Layout)
    requires ValidRows(rows)
    ensures Spell(RowsLayout(rows, n, rest)) == " " + Join(RowTexts(rows, n), "," + " ") + Spell(rest)
  {
    var k := n + |CellsBinds(rows[0])|;
    if |rows| == 1 {
      TupleSpelled(rows[0], n, rest);
      JoinOne(TupleText(rows[0], n), "," + " ");
      assert RowTexts(rows[1..], k) == [];
      hide Spell, Join, TupleText, TupleLayout, CellsBinds, ValidRows;
    } else {
      assert ValidRows(rows[1..]);
      hide Spell, Join, RowTexts, RowsLayout, CellsBinds, ValidRows;
      RowsSpelled(rows[1..], k, rest);
      RowsSpelledStep(rows, n, k, rest);
    }
  }

  lemma EqualsSeam(name: string, value: string, rest: string)
    ensures " " + name + (" " + "=" + (" " + value + rest)) == " " + (name + " = " + value) + rest
  {
    assert " " + "=" + " " == " = ";
  }

  lemma SetSpelled(s: Assignment, n: nat, rest: Layout)
    ensures Spell(Tok(" ", Quoted(s.column), Tok(" ", Sym("="), CellLayout(" ", s.cell, n, rest))))
         == " " + SetText(s, n) + Spell(rest)
  {
    assert TokenText(Sym("=")) == "=" && TokenText(Quoted(s.column)) == QuoteName(s.column);
    hide Spell, TokenText, QuoteName, CellText, CellLayout;
    var l := CellLayout(" ", s.cell, n, rest);
    CellSpelled(" ", s.cell, n, rest);
    OneSpelled(" ", Sym("="), l);
    OneSpelled(" ", Quoted(s.column), Tok(" ", Sym("="), l));
    EqualsSeam(QuoteName(s.column), CellText(s.cell, n), Spell(rest));
  }

  lemma {:induction false} SetsSpelled(sets: seq<Assignment>, n: nat, rest: Layout)
    requires sets != []
    ensures Spell(SetsLayout(sets, n, rest)) == " " + Join(SetTexts(sets, n), "," + " ") + Spell(rest)
  {
    assert TokenText(Sym(",")) == ",";
    hide Spell, Join, TokenText, SetText, CellBinds, CellLayout;
    var k := n + |CellBinds(sets[0].cell)|;
    var head := SetText(sets[0], n);
    if |sets| == 1 {
      SetSpelled(sets[0], n, rest);
      JoinOne(head, "," + " ");
    } else {
      var l, tail := SetsLayout(sets[1..], k, rest), SetTexts(sets[1..], k);
      var mid := Tok("", Sym(","), l);
      SetSpelled(sets[0], n, mid);
      SetsSpelled(sets[1..], k, rest);
      OneSpelled("", Sym(","), l);
      assert SetTexts(sets, n) == [head] + tail;
      assert Spell(SetsLayout(sets, n, rest)) == " " + head + Spell(mid);
      hide SetsLayout, SetTexts;
      ListSeam(Spell(SetsLayout(sets, n, rest)), " ", head, ",", Spell(mid),
               Join(SetTexts(sets, n), "," + " "), tail, Spell(rest));
    }
  }
}
