/** The database filter as the query builder writes it, `column LIKE '%q%'`,
    with the query pasted in unescaped. In SQL's LIKE, `%` stands for any run
    of characters and `_` for any one character, so a query holding either is
    a pattern rather than a substring. */
module LikeFilter {
  import opened Text
  import opened Content

  /** SQL LIKE: `%` matches any run, `_` any one character, every other
      character itself. No escape character is modelled. */
  function Like(s: string, p: string): (r: bool)
    ensures r && '%' !in p ==> |s| == |p|
    ensures p == [] ==> (r <==> s == [])
    decreases |s| + |p|
  {
    if p == [] then s == []
    else if p[0] == '%' then Like(s, p[1..]) || (s != [] && Like(s[1..], p))
    else s != [] && (p[0] == '_' || s[0] == p[0]) && Like(s[1..], p[1..])
  }

  /** A query with neither wildcard. */
  predicate Literal(q: string) {
    '%' !in q && '_' !in q
  }

  lemma {:induction false} PercentMatchesAll(s: string)
    ensures Like(s, "%")
  {
    if s != [] { PercentMatchesAll(s[1..]); }
  }

  /** A literal followed by `%` matches exactly the strings it begins. */
  lemma {:induction false} LiteralPrefix(s: string, q: string)
    requires Literal(q)
    ensures Like(s, q + "%") <==> |q| <= |s| && s[..|q|] == q
  {
    if q == [] {
      assert q + "%" == "%";
      PercentMatchesAll(s);
    } else {
      assert (q + "%")[0] == q[0] && (q + "%")[1..] == q[1..] + "%";
      if s != [] {
        LiteralPrefix(s[1..], q[1..]);
        if |q| <= |s| && s[..|q|] == q {
          assert s[0] == q[0] && s[1..][..|q| - 1] == q[1..];
        }
      }
    }
  }

  /** A leading `%` lets the rest of the pattern start anywhere. */
  lemma {:induction false} LeadingPercent(s: string, r: string)
    ensures Like(s, "%" + r) <==> exists i :: 0 <= i <= |s| && Like(s[i..], r)
  {
    assert ("%" + r)[0] == '%' && ("%" + r)[1..] == r;
    assert s[0..] == s;
    if s != [] {
      LeadingPercent(s[1..], r);
      if Like(s[1..], "%" + r) {
        var i :| 0 <= i <= |s[1..]| && Like(s[1..][i..], r);
        assert s[1..][i..] == s[i + 1..];
      }
      if exists i :: 0 <= i <= |s| && Like(s[i..], r) {
        var i :| 0 <= i <= |s| && Like(s[i..], r);
        if i > 0 { assert s[1..][i - 1..] == s[i..]; }
      }
    }
  }

  /** For a query without wildcards, `LIKE '%q%'` is substring containment. */
  lemma LikeIsContainsForLiterals(s: string, q: string)
    requires Literal(q)
    ensures Like(s, "%" + q + "%") <==> Contains(s, q)
  {
    assert "%" + q + "%" == "%" + (q + "%");
    LeadingPercent(s, q + "%");
    if Like(s, "%" + q + "%") {
      var i :| 0 <= i <= |s| && Like(s[i..], q + "%");
      LiteralPrefix(s[i..], q);
      assert s[i..][..|q|] == s[i..i + |q|];
      assert OccursAt(s, q, i);
    }
    if Contains(s, q) {
      var i: nat :| i <= |s| && OccursAt(s, q, i);
      LiteralPrefix(s[i..], q);
      assert s[i..][..|q|] == s[i..i + |q|];
      assert Like(s[i..], q + "%");
    }
  }

  /** Folding neither creates nor removes a wildcard. */
  lemma LowerKeepsLiteral(q: string)
    requires Literal(q)
    ensures Literal(LowerStr(q))
  {
    forall k | 0 <= k < |q| ensures LowerStr(q)[k] != '%' && LowerStr(q)[k] != '_' {
      assert q[k] in q;
    }
  }

  /** The filter as written: `title LIKE '%q%' OR description LIKE '%q%'`,
      under the same fold as the rest of the model. For a query without
      wildcards it selects exactly the rows that contain the query. */
  function LikeMatches(item: Item, query: string): (r: bool)
    ensures Literal(query) ==> (r <==> Matches(item, query))
  {
    if Literal(query) then
      LowerKeepsLiteral(query);
      LikeIsContainsForLiterals(LowerStr(item.title), LowerStr(query));
      LikeIsContainsForLiterals(LowerStr(item.description), LowerStr(query));
      Like(LowerStr(item.title), "%" + LowerStr(query) + "%")
      || Like(LowerStr(item.description), "%" + LowerStr(query) + "%")
    else
      Like(LowerStr(item.title), "%" + LowerStr(query) + "%")
      || Like(LowerStr(item.description), "%" + LowerStr(query) + "%")
  }

  /** Without wildcards in the query, the filter as written selects exactly the
      rows that contain the query, the filter the model uses. */
  lemma LikeAgreesForLiterals(item: Item, query: string)
    requires Literal(query)
    ensures LikeMatches(item, query) <==> Matches(item, query)
  {
  }

  /** The query "_" selects an album titled "x" with an empty description,
      though "_" occurs in neither field. */
  lemma UnderscoreSelectsNonMatch()
    ensures LikeMatches(Item(1, "x", "", 0, None), "_")
    ensures !Matches(Item(1, "x", "", 0, None), "_")
  {
    var item := Item(1, "x", "", 0, None);
    assert LowerStr("_") == "_";
    assert LowerStr("x") == "x";
    assert "%" + "_" + "%" == "%_%";
    assert Like("", "%") by { PercentMatchesAll(""); }
    assert Like("x", "_%");
    assert Like("x", "%_%");
    assert !OccursAt(LowerStr(item.title), LowerStr("_"), 0);
    assert !OccursAt(LowerStr(item.title), LowerStr("_"), 1);
    assert !OccursAt(LowerStr(item.description), LowerStr("_"), 0);
  }
}
