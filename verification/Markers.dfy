/** Texts that `replace("$LIM", ...)` and `replace("$OFF", ...)` leave alone or rewrite exactly once. */
module Markers {
  import opened Text
  import opened Catalog
  import opened SqlTokens
  import opened SqlStatements
  import opened SqlFrames

  const LIM := "$LIM"
  const OFF := "$OFF"

  predicate IsMark(q: string) {
    q == LIM || q == OFF
  }

  /** Every `$` is followed by a digit, so neither marker occurs, not even across a seam. */
  predicate DollarsNumbered(s: string) {
    forall i | 0 <= i < |s| && s[i] == '$' :: i + 1 < |s| && IsDigit(s[i + 1])
  }

  lemma NumberedConcat(a: string, b: string)
    requires DollarsNumbered(a) && DollarsNumbered(b)
    ensures DollarsNumbered(a + b)
  {
  }

  lemma NumberedFree(s: string, q: string)
    requires DollarsNumbered(s) && IsMark(q)
    ensures FreeOf(s, q)
  {
    forall i: nat ensures !OccursAt(s, q, i) {
      if i + |q| <= |s| {
        var w := s[i..i + |q|];
        assert w[0] == s[i] && w[1] == s[i + 1];
        assert q[0] == '$' && !IsDigit(q[1]);
      }
    }
  }

  // ---------------------------------------------------------------- the compiled parts

  lemma NumberedParam(n: nat, cast: string)
    requires IsIdent(cast)
    ensures DollarsNumbered(BoundText(cast, n))
  {
    var d := Dec(n + 1);
    assert IsDigit(d[0]);
    var s := BoundText(cast, n);
    assert s == ("$" + d) + ("::" + cast);
    assert DollarsNumbered("$" + d) by {
      assert forall i | 0 <= i < |d| :: IsDigit(d[i]);
    }
    assert DollarsNumbered("::" + cast) by {
      assert forall i | 0 <= i < |cast| :: IsWordChar(cast[i]);
    }
    NumberedConcat("$" + d, "::" + cast);
  }

  lemma NumberedName(c: string)
    requires IsIdent(c)
    ensures DollarsNumbered(QuoteName(c))
  {
    assert forall i | 0 <= i < |c| :: IsWordChar(c[i]);
  }

  lemma NumberedOp(op: CompareOp)
    ensures DollarsNumbered(" " + TokenText(OpToken(op)) + " ")
  {
  }

  predicate IdentCond(c: Cond) {
    IsIdent(c.column) && (c.Compare? ==> IsIdent(c.cast))
  }

  lemma NumberedCompare(name: string, op: CompareOp, cast: string, n: nat)
    requires DollarsNumbered(QuoteName(name)) && IsIdent(cast)
    ensures DollarsNumbered(QuoteName(name) + " " + TokenText(OpToken(op)) + " " + BoundText(cast, n))
  {
    NumberedOp(op);
    NumberedParam(n, cast);
    hide DollarsNumbered, QuoteName, TokenText, BoundText, IsIdent;
    var q, o, b := QuoteName(name), TokenText(OpToken(op)), BoundText(cast, n);
    NumberedConcat(q, " " + o + " ");
    NumberedConcat(q + (" " + o + " "), b);
    assert q + (" " + o + " ") + b == q + " " + o + " " + b;
  }

  lemma NumberedCond(c: Cond, n: nat)
    requires IdentCond(c)
    ensures DollarsNumbered(CondText(c, n))
  {
    var q := QuoteName(c.column);
    NumberedName(c.column);
    assert DollarsNumbered(" IS NULL") && DollarsNumbered(" IS NOT NULL");
    hide DollarsNumbered, QuoteName, TokenText, BoundText, IsIdent;
    match c
    case Compare(col, op, _, cast) => NumberedCompare(col, op, cast, n);
    case IsNull(_) => NumberedConcat(q, " IS NULL");
    case IsNotNull(_) => NumberedConcat(q, " IS NOT NULL");
  }

  lemma {:induction false} NumberedJoin(parts: seq<string>, sep: string)
    requires forall i | 0 <= i < |parts| :: DollarsNumbered(parts[i])
    requires DollarsNumbered(sep)
    ensures DollarsNumbered(Join(parts, sep))
  {
    if |parts| > 1 {
      NumberedJoin(parts[1..], sep);
      NumberedConcat(parts[0], sep);
      NumberedConcat(parts[0] + sep, Join(parts[1..], sep));
    }
  }

  lemma {:induction false} NumberedConds(cs: seq<Cond>, n: nat)
    requires forall i | 0 <= i < |cs| :: IdentCond(cs[i])
    ensures forall i | 0 <= i < |cs| :: DollarsNumbered(CondTexts(cs, n)[i])
  {
    if cs != [] {
      NumberedCond(cs[0], n);
      NumberedConds(cs[1..], n + |CondBinds(cs[0])|);
    }
  }

  lemma NumberedWhere(cs: seq<Cond>, n: nat)
    requires forall i | 0 <= i < |cs| :: IdentCond(cs[i])
    ensures DollarsNumbered(WhereText(cs, n))
  {
    if cs != [] {
      NumberedConds(cs, n);
      NumberedJoin(CondTexts(cs, n), " AND ");
      NumberedConcat(" WHERE ", Join(CondTexts(cs, n), " AND "));
    }
  }

  lemma {:induction false} NumberedNames(names: seq<string>)
    requires forall i | 0 <= i < |names| :: IsIdent(names[i])
    ensures forall i | 0 <= i < |names| :: DollarsNumbered(NameTexts(names)[i])
  {
    if names != [] {
      NumberedName(names[0]);
      NumberedNames(names[1..]);
    }
  }

  // ---------------------------------------------------------------- what a replacement leaves

  /** A stretch of the result without `$` was copied from the text. */
  lemma {:induction false} PrefixKept(t: string, pat: string, with: string, k: nat)
    requires IsMark(pat) && with != "" && with[0] == '$'
    requires k <= |Replace(t, pat, with)|
    requires forall i | 0 <= i < k :: Replace(t, pat, with)[i] != '$'
    ensures k <= |t| && t[..k] == Replace(t, pat, with)[..k]
    decreases |t|
  {
    var r := Replace(t, pat, with);
    assert |t| >= |pat| && pat <= t ==> r[0] == '$';
    if k > 0 && |t| >= |pat| {
      var x := Replace(t[1..], pat, with);
      assert r == [t[0]] + x;
      assert forall i | 0 <= i < k - 1 :: x[i] == r[i + 1];
      PrefixKept(t[1..], pat, with, k - 1);
      assert t[..k] == [t[0]] + t[1..][..k - 1];
    }
  }

  /** Replacing a marker by a placeholder removes that marker and creates none. */
  lemma {:induction false} ReplaceRemoves(s: string, pat: string, n: nat, q: string)
    requires IsMark(pat) && IsMark(q) && (q == pat || FreeOf(s, q))
    ensures FreeOf(Replace(s, pat, "$" + Dec(n)), q)
    decreases |s|
  {
    var with := "$" + Dec(n);
    var r := Replace(s, pat, with);
    if |s| < |pat| {
      assert |q| == |pat|;
    } else if pat <= s {
      var x := Replace(s[|pat|..], pat, with);
      if q != pat {
        FreeOfDrop(s, q, |pat|);
      }
      ReplaceRemoves(s[|pat|..], pat, n, q);
      assert IsDigit(with[|with| - 1]) && IsDigit(with[1]);
      assert DollarsNumbered(with);
      NumberedFree(with, q);
      FreeOfConcat(with, x, q);
    } else {
      var x := Replace(s[1..], pat, with);
      if q != pat {
        FreeOfTail(s, q);
      }
      ReplaceRemoves(s[1..], pat, n, q);
      assert s[0..4] == s[..4];
      assert !OccursAt(s, q, 0);
      if OccursAt([s[0]] + x, q, 0) {
        KeptAtStart(s, pat, with, q);
      }
      FreeOfCons(s[0], x, q);
    }
  }

  /** A marker at the start of a partly rewritten text was there before. */
  lemma KeptAtStart(s: string, pat: string, with: string, q: string)
    requires IsMark(pat) && IsMark(q) && with != "" && with[0] == '$' && s != ""
    requires OccursAt([s[0]] + Replace(s[1..], pat, with), q, 0)
    ensures OccursAt(s, q, 0)
  {
    var x := Replace(s[1..], pat, with);
    var r := [s[0]] + x;
    assert r[0..4] == q;
    assert x[..3] == r[0..4][1..] == q[1..];
    assert s[0] == r[0..4][0] == q[0];
    assert forall i | 0 <= i < 3 :: x[i] == x[..3][i] == q[1..][i] && q[1..][i] != '$';
    PrefixKept(s[1..], pat, with, 3);
    assert s[0..4] == [s[0]] + s[1..][..3];
    assert q == [q[0]] + q[1..];
  }

  lemma FreeOfCons(c: char, x: string, q: string)
    requires FreeOf(x, q) && !OccursAt([c] + x, q, 0)
    ensures FreeOf([c] + x, q)
  {
    var s := [c] + x;
    forall i: nat ensures !OccursAt(s, q, i) {
      if i > 0 {
        assert !OccursAt(x, q, i - 1);
        assert i + |q| <= |s| ==> s[i..i + |q|] == x[i - 1..i - 1 + |q|];
      }
    }
  }

  lemma FreeOfDrop(s: string, q: string, k: nat)
    requires k <= |s| && FreeOf(s, q)
    ensures FreeOf(s[k..], q)
  {
    forall i: nat ensures !OccursAt(s[k..], q, i) {
      assert !OccursAt(s, q, i + k);
      assert i + k + |q| <= |s| ==> s[k..][i..i + |q|] == s[i + k..i + k + |q|];
    }
  }

  lemma FreeOfPart(a: string, b: string, c: string, q: string)
    requires FreeOf(a + b + c, q)
    ensures FreeOf(b, q)
  {
    var s := a + b + c;
    forall i: nat ensures !OccursAt(b, q, i) {
      assert !OccursAt(s, q, |a| + i);
      assert i + |q| <= |b| ==> b[i..i + |q|] == s[|a| + i..|a| + i + |q|];
    }
  }
}
