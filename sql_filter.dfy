/** The discipline shared by the two list handlers of server/index.js: each supplied
    query key pushes one bound value onto `queryParams` and one predicate onto
    `conditions`, and the predicate names its value by the placeholder `$k`, where `k`
    is the length of `queryParams` right after the push. The predicates are then
    appended to a base query, each preceded by " AND ". */
module SqlFilter {
  import opened Strings

  /** The comparison a predicate applies to its column. */
  datatype Op = ILike | Eq | AtLeast | AtMost

  function OpText(op: Op): string
  {
    match op
    case ILike => "ILIKE"
    case Eq => "="
    case AtLeast => ">="
    case AtMost => "<="
  }

  /** One recognised query key: the column it filters, the comparison it uses, and the
      raw value of the request (the empty string when the key is absent). */
  datatype Criterion = Criterion(column: string, op: Op, value: string)

  /** A query-string value is truthy in JavaScript exactly when it is a non-empty string. */
  predicate Supplied(c: Criterion)
  {
    c.value != ""
  }

  /** The value bound for a criterion: a `%v%` substring pattern for ILIKE, `v` itself otherwise. */
  function Bound(c: Criterion): string
  {
    if c.op == ILike then "%" + c.value + "%" else c.value
  }

  /** A predicate of the WHERE part: column, comparison and 1-based placeholder index. */
  datatype Clause = Clause(column: string, op: Op, slot: nat)

  function Placeholder(k: nat): string
  {
    "$" + NatToString(k)
  }

  function RenderClause(c: Clause): string
  {
    c.column + " " + OpText(c.op) + " " + Placeholder(c.slot)
  }

  /** The supplied criteria, in the order the handler tests them. */
  function SuppliedOnly(cs: seq<Criterion>): (r: seq<Criterion>)
    ensures |r| <= |cs|
  {
    if cs == [] then []
    else
      var init := SuppliedOnly(cs[..|cs| - 1]);
      if Supplied(cs[|cs| - 1]) then init + [cs[|cs| - 1]] else init
  }

  /** Every entry of the supplied list is a supplied criterion of `cs`. */
  lemma {:induction false} SuppliedFrom(cs: seq<Criterion>, k: nat)
    requires k < |SuppliedOnly(cs)|
    ensures SuppliedOnly(cs)[k] in cs && Supplied(SuppliedOnly(cs)[k])
  {
    var init := cs[..|cs| - 1];
    assert cs == init + [cs[|cs| - 1]];
    if k < |SuppliedOnly(init)| {
      SuppliedFrom(init, k);
    }
  }

  /** Every supplied criterion of `cs` is in the supplied list. */
  lemma {:induction false} SuppliedMember(cs: seq<Criterion>, c: Criterion)
    requires c in cs && Supplied(c)
    ensures c in SuppliedOnly(cs)
  {
    var init := cs[..|cs| - 1];
    assert cs == init + [cs[|cs| - 1]];
    if c != cs[|cs| - 1] {
      SuppliedMember(init, c);
    }
  }

  /** `queryParams` once the handler has tested every criterion of `cs`. */
  function Params(cs: seq<Criterion>): seq<string>
  {
    if cs == [] then []
    else
      var last := cs[|cs| - 1];
      Params(cs[..|cs| - 1]) + (if Supplied(last) then [Bound(last)] else [])
  }

  /** The predicates once the handler has tested every criterion of `cs`: each names the
      placeholder one past the number of values bound before it. */
  function Clauses(cs: seq<Criterion>): seq<Clause>
  {
    if cs == [] then []
    else
      var init, last := cs[..|cs| - 1], cs[|cs| - 1];
      Clauses(init) + (if Supplied(last) then [Clause(last.column, last.op, |Params(init)| + 1)] else [])
  }

  /** `conditions`: the predicates as text. */
  function Texts(cls: seq<Clause>): seq<string>
  {
    seq(|cls|, k requires 0 <= k < |cls| => RenderClause(cls[k]))
  }

  /** The query text the handlers send: `base`, then " AND " and the predicates joined
      by " AND " when there is at least one predicate. */
  function QueryText(base: string, cls: seq<Clause>): string
  {
    if |cls| == 0 then base else base + " AND " + Join(Texts(cls), " AND ")
  }

  /** Testing one more criterion extends the supplied list by it exactly when it is supplied. */
  lemma SuppliedSnoc(cs: seq<Criterion>, c: Criterion)
    ensures SuppliedOnly(cs + [c]) == SuppliedOnly(cs) + (if Supplied(c) then [c] else [])
  {
    assert (cs + [c])[..|cs + [c]| - 1] == cs;
  }

  /** One `if (key) { queryParams.push(v); conditions.push(pred $len) }` step keeps both
      arrays equal to the functions of the criteria tested so far. */
  lemma BuilderStep(done: seq<Criterion>, c: Criterion, queryParams: seq<string>, conditions: seq<string>)
    requires queryParams == Params(done) && conditions == Texts(Clauses(done))
    ensures Supplied(c) ==>
      queryParams + [Bound(c)] == Params(done + [c]) &&
      conditions + [RenderClause(Clause(c.column, c.op, |queryParams| + 1))] == Texts(Clauses(done + [c]))
    ensures !Supplied(c) ==>
      queryParams == Params(done + [c]) && conditions == Texts(Clauses(done + [c]))
  {
    SuppliedSnoc(done, c);
  }

  /** Testing one more criterion, in terms of the two lists. */
  lemma ListsSnoc(done: seq<Criterion>, c: Criterion)
    ensures Params(done + [c]) == Params(done) + (if Supplied(c) then [Bound(c)] else [])
    ensures Clauses(done + [c]) == Clauses(done) + (if Supplied(c) then [Clause(c.column, c.op, |Params(done)| + 1)] else [])
  {
    assert (done + [c])[..|done|] == done;
  }

  /** Two unsupplied criteria leave both lists alone. */
  lemma SkipTwo(done: seq<Criterion>, x: Criterion, y: Criterion)
    requires !Supplied(x) && !Supplied(y)
    ensures Params(done + [x] + [y]) == Params(done) && Clauses(done + [x] + [y]) == Clauses(done)
  {
    ListsSnoc(done, x);
    ListsSnoc(done + [x], y);
  }

  /** Two supplied criteria push two values and two predicates numbered after them. */
  lemma PushTwo(done: seq<Criterion>, x: Criterion, y: Criterion)
    requires Supplied(x) && Supplied(y)
    ensures Params(done + [x] + [y]) == Params(done) + [Bound(x), Bound(y)]
    ensures Clauses(done + [x] + [y]) ==
      Clauses(done) + [Clause(x.column, x.op, |Params(done)| + 1), Clause(y.column, y.op, |Params(done)| + 2)]
  {
    ListsSnoc(done, x);
    ListsSnoc(done + [x], y);
  }

  /** Six criteria of which only the third and fourth are supplied: two bound values and
      two predicates, numbered 1 and 2. */
  lemma TwoOfSix(a: Criterion, b: Criterion, c: Criterion, d: Criterion, e: Criterion, g: Criterion)
    requires !Supplied(a) && !Supplied(b) && Supplied(c) && Supplied(d) && !Supplied(e) && !Supplied(g)
    ensures Params([a, b, c, d, e, g]) == [Bound(c), Bound(d)]
    ensures Clauses([a, b, c, d, e, g]) == [Clause(c.column, c.op, 1), Clause(d.column, d.op, 2)]
  {
    var p0: seq<Criterion> := [];
    var p2 := p0 + [a] + [b];
    var p4 := p2 + [c] + [d];
    var p6 := p4 + [e] + [g];
    SkipTwo(p0, a, b);
    PushTwo(p2, c, d);
    SkipTwo(p4, e, g);
    assert p6 == [a, b, c, d, e, g];
  }

  /** One guarded step of a list handler: when the key is supplied, push its bound value
      onto `queryParams` and then its predicate, whose placeholder is the new length of
      `queryParams`. Both arrays stay equal to the functions of the criteria tested so far. */
  method AddCriterion(ghost done: seq<Criterion>, c: Criterion, queryParams: seq<string>, conditions: seq<string>)
    returns (queryParams': seq<string>, conditions': seq<string>)
    requires queryParams == Params(done) && conditions == Texts(Clauses(done))
    ensures queryParams' == Params(done + [c]) && conditions' == Texts(Clauses(done + [c]))
    ensures Supplied(c) ==> |queryParams'| == |queryParams| + 1
    ensures !Supplied(c) ==> queryParams' == queryParams && conditions' == conditions
  {
    BuilderStep(done, c, queryParams, conditions);
    queryParams', conditions' := queryParams, conditions;
    if c.value != "" {
      queryParams' := queryParams' + [Bound(c)];
      conditions' := conditions' + [RenderClause(Clause(c.column, c.op, |queryParams'|))];
    }
  }

  /** The two arrays in closed form: one entry per supplied criterion, in order; the k-th
      (counting from 0) binds that criterion's value and its predicate names `$(k+1)`. */
  lemma {:induction false} ClosedForm(cs: seq<Criterion>)
    ensures |Params(cs)| == |Clauses(cs)| == |SuppliedOnly(cs)|
    ensures forall k :: 0 <= k < |SuppliedOnly(cs)| ==>
      Params(cs)[k] == Bound(SuppliedOnly(cs)[k]) &&
      Clauses(cs)[k] == Clause(SuppliedOnly(cs)[k].column, SuppliedOnly(cs)[k].op, k + 1)
    decreases |cs|
  {
    if cs != [] {
      var init := cs[..|cs| - 1];
      ClosedForm(init);
      assert cs == init + [cs[|cs| - 1]];
      SuppliedSnoc(init, cs[|cs| - 1]);
    }
  }

  /** There are as many predicates as bound values, and the k-th predicate (counting from
      0) names the placeholder `$(k+1)`, whose value is the k-th bound value. */
  lemma PlaceholdersLineUp(cs: seq<Criterion>)
    ensures |Params(cs)| == |Clauses(cs)| == |Texts(Clauses(cs))| == |SuppliedOnly(cs)|
    ensures forall k :: 0 <= k < |Clauses(cs)| ==>
      Clauses(cs)[k].slot == k + 1 &&
      Texts(Clauses(cs))[k] == RenderClause(Clauses(cs)[k]) &&
      Params(cs)[Clauses(cs)[k].slot - 1] == Bound(SuppliedOnly(cs)[k])
  {
    ClosedForm(cs);
  }

  /** A row satisfies the predicates under the bound values, where `holds(column, op, v)`
      says that the row's `column` compares as `op` against `v` (the database's evaluation
      of ILIKE, =, >= and <=, which is not part of this model). */
  ghost predicate Satisfies(cls: seq<Clause>, params: seq<string>, holds: (string, Op, string) -> bool)
  {
    forall k :: 0 <= k < |cls| ==>
      1 <= cls[k].slot <= |params| && holds(cls[k].column, cls[k].op, params[cls[k].slot - 1])
  }

  /** The intended reading of a filter: the row meets every supplied criterion. */
  ghost predicate Matches(cs: seq<Criterion>, holds: (string, Op, string) -> bool)
  {
    forall j :: 0 <= j < |cs| ==> Meets(cs[j], holds)
  }

  /** The row meets one criterion: an absent key imposes nothing. */
  ghost predicate Meets(c: Criterion, holds: (string, Op, string) -> bool)
  {
    Supplied(c) ==> holds(c.column, c.op, Bound(c))
  }

  /** Meeting six criteria is meeting each of them. */
  lemma MatchesOfSix(cs: seq<Criterion>, holds: (string, Op, string) -> bool)
    requires |cs| == 6
    ensures Matches(cs, holds) <==>
      Meets(cs[0], holds) && Meets(cs[1], holds) && Meets(cs[2], holds) &&
      Meets(cs[3], holds) && Meets(cs[4], holds) && Meets(cs[5], holds)
  {
    if Meets(cs[0], holds) && Meets(cs[1], holds) && Meets(cs[2], holds) &&
       Meets(cs[3], holds) && Meets(cs[4], holds) && Meets(cs[5], holds) {
      forall j | 0 <= j < |cs| ensures Meets(cs[j], holds) {
        if j < 3 {
          assert j == 0 || j == 1 || j == 2;
        } else {
          assert j == 3 || j == 4 || j == 5;
        }
      }
    }
  }

  /** The k-th predicate and the k-th bound value come from the k-th supplied criterion. */
  lemma ClosedFormAt(cs: seq<Criterion>, k: nat)
    requires k < |SuppliedOnly(cs)|
    ensures |Params(cs)| == |Clauses(cs)| == |SuppliedOnly(cs)|
    ensures Params(cs)[k] == Bound(SuppliedOnly(cs)[k])
    ensures Clauses(cs)[k] == Clause(SuppliedOnly(cs)[k].column, SuppliedOnly(cs)[k].op, k + 1)
  {
    ClosedForm(cs);
  }

  /** A row that meets every supplied criterion satisfies the built predicates. */
  lemma MatchesSatisfies(cs: seq<Criterion>, holds: (string, Op, string) -> bool)
    requires Matches(cs, holds)
    ensures Satisfies(Clauses(cs), Params(cs), holds)
  {
    var s := SuppliedOnly(cs);
    var cls, ps := Clauses(cs), Params(cs);
    assert |cls| == |s| == |ps| by {
      ClosedForm(cs);
    }
    forall k | 0 <= k < |cls|
      ensures 1 <= cls[k].slot <= |ps| && holds(cls[k].column, cls[k].op, ps[cls[k].slot - 1])
    {
      SuppliedFrom(cs, k);
      ClosedFormAt(cs, k);
      var j :| 0 <= j < |cs| && cs[j] == s[k];
      assert Meets(cs[j], holds);
    }
  }

  /** A row that satisfies the built predicates meets every supplied criterion. */
  lemma SatisfiesMatches(cs: seq<Criterion>, holds: (string, Op, string) -> bool)
    requires Satisfies(Clauses(cs), Params(cs), holds)
    ensures Matches(cs, holds)
  {
    var s := SuppliedOnly(cs);
    var cls, ps := Clauses(cs), Params(cs);
    forall j | 0 <= j < |cs| && Supplied(cs[j])
      ensures Meets(cs[j], holds)
    {
      var c := cs[j];
      SuppliedMember(cs, c);
      var k :| 0 <= k < |s| && s[k] == c;
      ClosedFormAt(cs, k);
      assert holds(cls[k].column, cls[k].op, ps[cls[k].slot - 1]);
    }
  }

  /** The placeholders bind the right values: executing the built predicates with the built
      parameters selects exactly the rows that meet every supplied criterion. */
  lemma BindingSound(cs: seq<Criterion>, holds: (string, Op, string) -> bool)
    ensures Satisfies(Clauses(cs), Params(cs), holds) <==> Matches(cs, holds)
  {
    if Matches(cs, holds) {
      MatchesSatisfies(cs, holds);
    }
    if Satisfies(Clauses(cs), Params(cs), holds) {
      SatisfiesMatches(cs, holds);
    }
  }

  /** Two criteria lists with the same columns, comparisons and supplied keys. */
  predicate SameShape(cs: seq<Criterion>, ds: seq<Criterion>)
  {
    |cs| == |ds| &&
    forall k :: 0 <= k < |cs| ==>
      cs[k].column == ds[k].column && cs[k].op == ds[k].op && (Supplied(cs[k]) <==> Supplied(ds[k]))
  }

  /** Two lists that agree on columns and comparisons, position by position. */
  predicate SameColumns(s: seq<Criterion>, t: seq<Criterion>)
  {
    |s| == |t| && forall k :: 0 <= k < |s| ==> s[k].column == t[k].column && s[k].op == t[k].op
  }

  lemma SameColumnsSnoc(s: seq<Criterion>, t: seq<Criterion>, x: Criterion, y: Criterion)
    requires SameColumns(s, t) && x.column == y.column && x.op == y.op
    ensures SameColumns(s + [x], t + [y])
  {
  }

  /** Criteria of the same shape leave supplied lists with the same columns and comparisons. */
  lemma {:induction false} SuppliedSameColumns(cs: seq<Criterion>, ds: seq<Criterion>)
    requires SameShape(cs, ds)
    ensures SameColumns(SuppliedOnly(cs), SuppliedOnly(ds))
    decreases |cs|
  {
    if cs != [] {
      var n := |cs| - 1;
      var ci, di := cs[..n], ds[..n];
      var s, t := SuppliedOnly(ci), SuppliedOnly(di);
      assert SameColumns(s, t) by {
        assert SameShape(ci, di);
        SuppliedSameColumns(ci, di);
      }
      assert SuppliedOnly(cs) == s + (if Supplied(cs[n]) then [cs[n]] else []) by {
        assert cs == ci + [cs[n]];
        SuppliedSnoc(ci, cs[n]);
      }
      assert SuppliedOnly(ds) == t + (if Supplied(ds[n]) then [ds[n]] else []) by {
        assert ds == di + [ds[n]];
        SuppliedSnoc(di, ds[n]);
      }
      assert cs[n].column == ds[n].column && cs[n].op == ds[n].op && (Supplied(cs[n]) <==> Supplied(ds[n]));
      if Supplied(cs[n]) {
        SameColumnsSnoc(s, t, cs[n], ds[n]);
      } else {
        assert SuppliedOnly(cs) == s && SuppliedOnly(ds) == t;
      }
    }
  }

  /** The predicates depend only on which keys are supplied, never on their values: no
      request value can reach the query text. */
  lemma ClausesIgnoreValues(cs: seq<Criterion>, ds: seq<Criterion>)
    requires SameShape(cs, ds)
    ensures Clauses(cs) == Clauses(ds)
  {
    SuppliedSameColumns(cs, ds);
    ClosedForm(cs);
    ClosedForm(ds);
  }

  /** The query text equals the base exactly when no key is supplied. */
  lemma Unfiltered(base: string, cs: seq<Criterion>)
    ensures QueryText(base, Clauses(cs)) == base <==> forall c :: c in cs ==> !Supplied(c)
    ensures (forall c :: c in cs ==> !Supplied(c)) <==> Params(cs) == []
  {
    var s := SuppliedOnly(cs);
    ClosedForm(cs);
    if s != [] {
      assert s[0] in s;
      assert |QueryText(base, Clauses(cs))| > |base|;
    }
  }

  /** The query text over two predicates: the base, then each predicate after " AND ". */
  lemma QueryTextOfTwo(base: string, cls: seq<Clause>, t1: string, t2: string)
    requires Texts(cls) == [t1, t2]
    ensures QueryText(base, cls) == base + " AND " + t1 + " AND " + t2
  {
    JoinCons(t1, [t2], " AND ");
  }

  /** A well-formed SELECT: the table, then " WHERE " and the conjuncts joined by " AND "
      when there are any. */
  function SelectText(table: string, conjuncts: seq<string>): string
  {
    "SELECT * FROM " + table + (if conjuncts == [] then "" else " WHERE " + Join(conjuncts, " AND "))
  }

  /** The query text with the predicates attached by WHERE instead of " AND ". */
  function WhereText(base: string, cls: seq<Clause>): string
  {
    if |cls| == 0 then base else base + " WHERE " + Join(Texts(cls), " AND ")
  }

  /** Appending " AND " predicates to a bare `SELECT * FROM table` never yields the
      well-formed SELECT over those predicates: the keyword WHERE is missing. */
  lemma AndWithoutWhereIsMalformed(table: string, cs: seq<Criterion>)
    requires exists c :: c in cs && Supplied(c)
    ensures QueryText("SELECT * FROM " + table, Clauses(cs)) != SelectText(table, Texts(Clauses(cs)))
  {
    Unfiltered("SELECT * FROM " + table, cs);
    ClosedForm(cs);
    var ts := Texts(Clauses(cs));
    assert ts != [];
    var tail := Join(ts, " AND ");
    var n := |"SELECT * FROM " + table|;
    assert QueryText("SELECT * FROM " + table, Clauses(cs)) == ("SELECT * FROM " + table) + (" AND " + tail);
    assert SelectText(table, ts) == ("SELECT * FROM " + table) + (" WHERE " + tail);
    assert QueryText("SELECT * FROM " + table, Clauses(cs))[n + 1] == 'A';
    assert SelectText(table, ts)[n + 1] == 'W';
  }

  /** Attaching the predicates with WHERE gives the well-formed SELECT over them. */
  lemma WhereTextIsSelect(table: string, cs: seq<Criterion>)
    ensures WhereText("SELECT * FROM " + table, Clauses(cs)) == SelectText(table, Texts(Clauses(cs)))
  {
  }

  /** A base that already filters by `guard` turns " AND " predicates into further
      conjuncts of its WHERE part. */
  lemma PrefilteredIsSelect(table: string, guard: string, cs: seq<Criterion>)
    ensures QueryText("SELECT * FROM " + table + " WHERE " + guard, Clauses(cs))
      == SelectText(table, [guard] + Texts(Clauses(cs)))
  {
    var ts := Texts(Clauses(cs));
    if ts == [] {
      assert [guard] + ts == [guard];
    } else {
      JoinCons(guard, ts, " AND ");
    }
  }
}
