/**
 * The query-building parts of the `Job` data-access class: the filter clause
 * composed by `findAll`, the statement and bind list assembled by `updata`, and
 * the "no row means not found" rule shared by `get`, `updata` and `remove`.
 * The database calls themselves are not modelled.
 */
module Job {
  import opened Values
  import opened SqlText
  import opened SqlHelpers

  // ---------------------------------------------------------------------------
  // findAll: filter composition

  /** The optional filters `findAll` destructures from its argument. */
  datatype Filters = Filters(title: Option<string>, minSalary: Option<Value>, hasEquity: Option<Value>)

  /** A filter that `findAll` applies, in the order it considers them. */
  datatype Filter = ByTitle(title: string) | ByMinSalary(minSalary: Value) | ByEquity

  /** A predicate of the `WHERE` clause; `slot` is the placeholder number it uses. */
  datatype Predicate = TitleLike(slot: nat) | SalaryAtLeast(slot: nat) | EquityPositive

  /** The fixed `SELECT ... FROM jobs ... JOIN companies` text the query starts with. */
  const FindAllSelect: string :=
    "\n        SELECT j.id, j.title, j.salary, j.equity, j.company_handle AS companyHandle, c.name AS companyName"
    + "\n        FROM jobs AS j"
    + "\n        LEFT JOIN companies AS c"
    + "\n        ON c.handle = j.company_handle"

  const OrderByTitle: string := " ORDER BY title "

  /** `title` is truthy: present and not the empty string. */
  predicate TitleGiven(f: Filters) {
    f.title.Some? && f.title.value != ""
  }

  /** `hasEquity === true`: present and exactly the boolean `true`. */
  predicate EquityRequested(f: Filters) {
    f.hasEquity == Some(Bool(true))
  }

  /**
   * The filters `findAll` applies, in the order it tests them: a truthy title
   * first, then a minimum salary whenever one is passed, whatever its value,
   * then equity when `hasEquity` is exactly `true`, and nothing else.
   */
  function Requested(f: Filters): (r: seq<Filter>)
    ensures |r| == (if TitleGiven(f) then 1 else 0) + (if f.minSalary.Some? then 1 else 0)
                   + (if EquityRequested(f) then 1 else 0)
    ensures TitleGiven(f) <==> (|r| > 0 && r[0].ByTitle?)
    ensures TitleGiven(f) ==> r[0] == ByTitle(f.title.value)
    ensures var k := if TitleGiven(f) then 1 else 0;
            && (f.minSalary.Some? <==> (k < |r| && r[k].ByMinSalary?))
            && (f.minSalary.Some? ==> r[k] == ByMinSalary(f.minSalary.value))
    ensures EquityRequested(f) <==> (|r| > 0 && r[|r| - 1] == ByEquity)
  {
    (if TitleGiven(f) then [ByTitle(f.title.value)] else [])
    + (if f.minSalary.Some? then [ByMinSalary(f.minSalary.value)] else [])
    + (if EquityRequested(f) then [ByEquity] else [])
  }

  /** The bind values a filter pushes: the `%title%` pattern, the minimum salary, or none. */
  function BindOf(flt: Filter): (vs: seq<Value>) {
    match flt
    case ByTitle(t) => [Text("%" + t + "%")]
    case ByMinSalary(m) => [m]
    case ByEquity => []
  }

  /** The bind list after pushing the filters `fs` one after the other. */
  function Binds(fs: seq<Filter>): (vs: seq<Value>)
    ensures |vs| <= |fs|
  {
    if fs == [] then [] else Binds(fs[..|fs| - 1]) + BindOf(fs[|fs| - 1])
  }

  function PredicateFor(flt: Filter, slot: nat): (p: Predicate) {
    match flt
    case ByTitle(_) => TitleLike(slot)
    case ByMinSalary(_) => SalaryAtLeast(slot)
    case ByEquity => EquityPositive
  }

  /**
   * The predicates pushed for `fs`, in order. A predicate that binds a value
   * takes as its placeholder number the length of the bind list just after its
   * value was pushed.
   */
  function Predicates(fs: seq<Filter>): (ps: seq<Predicate>)
    ensures |ps| == |fs|
  {
    if fs == [] then [] else Predicates(fs[..|fs| - 1]) + [PredicateFor(fs[|fs| - 1], |Binds(fs)|)]
  }

  /**
   * The expression text of a predicate: its kind can be told from the text,
   * and only the equity test is exactly `equity > 0`.
   */
  function RenderPredicate(p: Predicate): (s: string)
    ensures p.TitleLike? <==> |s| > 12 && s[..12] == "name ILIKE $"
    ensures p.SalaryAtLeast? <==> |s| > 11 && s[..11] == "salary >= $"
    ensures p.EquityPositive? <==> s == "equity > 0"
  {
    match p
    case TitleLike(k) =>
      var s := "name ILIKE $" + NatToString(k);
      assert s[0] == 'n' && s[..12] == "name ILIKE $";
      s
    case SalaryAtLeast(k) =>
      var s := "salary >= $" + NatToString(k);
      assert s[0] == 's' && s[..11] == "salary >= $";
      s
    case EquityPositive => "equity > 0"
  }

  /** The placeholder number written after `$` in a predicate's text reads back as its slot. */
  lemma PredicatePlaceholder(p: Predicate)
    requires !p.EquityPositive?
    ensures var prefix := if p.TitleLike? then "name ILIKE $" else "salary >= $";
            NumberedAfter(RenderPredicate(p), prefix, p.slot)
  {
    var prefix := if p.TitleLike? then "name ILIKE $" else "salary >= $";
    assert RenderPredicate(p) == prefix + NatToString(p.slot);
    PrefixedNumber(prefix, p.slot);
  }

  function RenderPredicates(ps: seq<Predicate>): (exprs: seq<string>)
    ensures |exprs| == |ps|
    ensures forall i :: 0 <= i < |ps| ==> exprs[i] == RenderPredicate(ps[i])
  {
    if ps == [] then [] else RenderPredicates(ps[..|ps| - 1]) + [RenderPredicate(ps[|ps| - 1])]
  }

  /** The placeholder numbers the predicates use, in order. */
  function Slots(ps: seq<Predicate>): (ks: seq<nat>) {
    if ps == [] then []
    else Slots(ps[..|ps| - 1]) + (if ps[|ps| - 1].EquityPositive? then [] else [ps[|ps| - 1].slot])
  }

  /**
   * The query text once the filters are known: the `WHERE` clause is added
   * only when some value is bound, and the query always ends by ordering on title.
   */
  function FindAllQuery(expressions: seq<string>, filterValues: seq<Value>): (q: string)
    ensures |filterValues| > 0 <==> |q| > |FindAllSelect| + |OrderByTitle|
  {
    FindAllSelect + (if |filterValues| > 0 then " WHERE " + Join(" AND ", expressions) else "") + OrderByTitle
  }

  lemma BindsSnoc(fs: seq<Filter>, flt: Filter)
    ensures Binds(fs + [flt]) == Binds(fs) + BindOf(flt)
  {
    assert (fs + [flt])[..|fs|] == fs;
  }

  lemma PredicatesSnoc(fs: seq<Filter>, flt: Filter)
    ensures Predicates(fs + [flt]) == Predicates(fs) + [PredicateFor(flt, |Binds(fs)| + |BindOf(flt)|)]
  {
    assert (fs + [flt])[..|fs|] == fs;
    BindsSnoc(fs, flt);
  }

  /** Pushing at most one more filter. */
  lemma PushOptional(fs: seq<Filter>, opt: seq<Filter>)
    requires |opt| <= 1
    ensures Binds(fs + opt) == Binds(fs) + (if opt == [] then [] else BindOf(opt[0]))
    ensures Predicates(fs + opt) ==
            Predicates(fs) + (if opt == [] then [] else [PredicateFor(opt[0], |Binds(fs)| + |BindOf(opt[0])|)])
  {
    if opt == [] {
      assert fs + opt == fs;
    } else {
      assert opt == [opt[0]];
      BindsSnoc(fs, opt[0]);
      PredicatesSnoc(fs, opt[0]);
    }
  }

  lemma RenderPredicatesSnoc(ps: seq<Predicate>, p: Predicate)
    ensures RenderPredicates(ps + [p]) == RenderPredicates(ps) + [RenderPredicate(p)]
  {
    assert (ps + [p])[..|ps|] == ps;
  }

  /** The bind list `findAll` ends with, written out case by case. */
  function FindAllValues(f: Filters): (vs: seq<Value>) {
    (if TitleGiven(f) then [Text("%" + f.title.value + "%")] else [])
    + (if f.minSalary.Some? then [f.minSalary.value] else [])
  }

  /** The expression list `findAll` ends with, written out case by case. */
  function FindAllExpressions(f: Filters): (exprs: seq<string>) {
    (if TitleGiven(f) then ["name ILIKE $" + NatToString(1)] else [])
    + (if f.minSalary.Some? then ["salary >= $" + NatToString(if TitleGiven(f) then 2 else 1)] else [])
    + (if EquityRequested(f) then ["equity > 0"] else [])
  }

  /**
   * The filter builder of `findAll`: pushes onto the expression list and the
   * bind list step by step, reading the bind list's length for each
   * placeholder, then appends the `WHERE` clause and the ordering.
   */
  method BuildFindAllQuery(f: Filters) returns (expressions: seq<string>, filterValues: seq<Value>, query: string)
    ensures filterValues == Binds(Requested(f))
    ensures expressions == RenderPredicates(Predicates(Requested(f)))
    ensures query == FindAllQuery(expressions, filterValues)
    ensures |filterValues| <= |expressions| <= 3 && |filterValues| <= 2
  {
    query := FindAllSelect;
    expressions := [];
    filterValues := [];

    if f.title.Some? && f.title.value != "" {
      filterValues := filterValues + [Text("%" + f.title.value + "%")];
      expressions := expressions + ["name ILIKE $" + NatToString(|filterValues|)];
    }

    if f.minSalary.Some? {
      filterValues := filterValues + [f.minSalary.value];
      expressions := expressions + ["salary >= $" + NatToString(|filterValues|)];
    }

    if f.hasEquity == Some(Bool(true)) {
      expressions := expressions + ["equity > 0"];
    }

    if |filterValues| > 0 {
      query := query + (" WHERE " + Join(" AND ", expressions));
    }
    assert query == FindAllSelect + (if |filterValues| > 0 then " WHERE " + Join(" AND ", expressions) else "");

    query := query + OrderByTitle;
    assert filterValues == FindAllValues(f) && expressions == FindAllExpressions(f);
    FindAllClosedForms(f);
  }

  // ---------------------------------------------------------------------------
  // findAll: what the composed filter promises

  lemma SlotsSnoc(ps: seq<Predicate>, p: Predicate)
    ensures Slots(ps + [p]) == Slots(ps) + (if p.EquityPositive? then [] else [p.slot])
  {
    assert (ps + [p])[..|ps|] == ps;
  }

  /** The placeholder numbers 1, 2, ..., n. */
  function OneTo(n: nat): (r: seq<nat>)
    ensures |r| == n
    ensures forall k :: 0 <= k < n ==> r[k] == k + 1
  {
    if n == 0 then [] else OneTo(n - 1) + [n]
  }

  /**
   * Placeholder numbers are strictly sequential from 1: in the order the
   * predicates were pushed, the ones that bind a value use exactly $1, $2, ...,
   * up to the number of bind values.
   */
  lemma {:induction false} PlaceholdersSequential(fs: seq<Filter>)
    ensures Slots(Predicates(fs)) == OneTo(|Binds(fs)|)
  {
    if fs != [] {
      var init, last := fs[..|fs| - 1], fs[|fs| - 1];
      assert fs == init + [last];
      PlaceholdersSequential(init);
      BindsSnoc(init, last);
      PredicatesSnoc(init, last);
      var p := PredicateFor(last, |Binds(fs)|);
      SlotsSnoc(Predicates(init), p);
      if last.ByEquity? {
        assert Slots(Predicates(fs)) == Slots(Predicates(init));
        assert |Binds(fs)| == |Binds(init)|;
      } else {
        assert |Binds(fs)| == |Binds(init)| + 1;
        assert Slots(Predicates(fs)) == OneTo(|Binds(init)|) + [|Binds(fs)|];
      }
    }
  }

  /**
   * Placeholder/value alignment: the i-th predicate has the kind of the i-th
   * filter, and when it binds a value its placeholder $k refers to that
   * filter's own value at position k - 1 of the bind list.
   */
  lemma {:induction false} PlaceholderValueAlignment(fs: seq<Filter>, i: nat)
    requires i < |fs|
    ensures fs[i].ByTitle? <==> Predicates(fs)[i].TitleLike?
    ensures fs[i].ByMinSalary? <==> Predicates(fs)[i].SalaryAtLeast?
    ensures fs[i].ByEquity? <==> Predicates(fs)[i].EquityPositive?
    ensures !fs[i].ByEquity? ==>
              && 1 <= Predicates(fs)[i].slot <= |Binds(fs)|
              && Binds(fs)[Predicates(fs)[i].slot - 1] == BindOf(fs[i])[0]
  {
    var init, last := fs[..|fs| - 1], fs[|fs| - 1];
    assert fs == init + [last];
    BindsSnoc(init, last);
    PredicatesSnoc(init, last);
    if i < |fs| - 1 {
      PlaceholderValueAlignment(init, i);
      assert fs[i] == init[i];
      assert Predicates(fs)[i] == Predicates(init)[i];
      if !fs[i].ByEquity? {
        var k := Predicates(init)[i].slot;
        assert Binds(fs)[k - 1] == Binds(init)[k - 1];
      }
    }
  }

  /**
   * The filters `findAll` composes, written out: a truthy title gives one
   * `ILIKE` predicate on $1 with the value `%title%` (an empty title gives
   * nothing); a present `minSalary`, whatever its value, gives one `>=`
   * predicate on the next placeholder with that value; `hasEquity === true`
   * gives `equity > 0` and no value. The order is title, minSalary, hasEquity.
   */
  lemma FindAllFilters(f: Filters)
    ensures Binds(Requested(f)) ==
            (if TitleGiven(f) then [Text("%" + f.title.value + "%")] else [])
            + (if f.minSalary.Some? then [f.minSalary.value] else [])
    ensures Predicates(Requested(f)) ==
            (if TitleGiven(f) then [TitleLike(1)] else [])
            + (if f.minSalary.Some? then [SalaryAtLeast(if TitleGiven(f) then 2 else 1)] else [])
            + (if EquityRequested(f) then [EquityPositive] else [])
  {
    var a: seq<Filter> := if TitleGiven(f) then [ByTitle(f.title.value)] else [];
    var b: seq<Filter> := if f.minSalary.Some? then [ByMinSalary(f.minSalary.value)] else [];
    var c: seq<Filter> := if EquityRequested(f) then [ByEquity] else [];
    assert Requested(f) == a + b + c;
    FilterSteps(a, b, c);
  }

  /** Pushing at most one title, then at most one salary, then at most one equity filter. */
  lemma FilterSteps(a: seq<Filter>, b: seq<Filter>, c: seq<Filter>)
    requires |a| <= 1 && (a != [] ==> a[0].ByTitle?)
    requires |b| <= 1 && (b != [] ==> b[0].ByMinSalary?)
    requires c == [] || c == [ByEquity]
    ensures Binds(a + b + c) ==
            (if a == [] then [] else BindOf(a[0])) + (if b == [] then [] else BindOf(b[0]))
    ensures Predicates(a + b + c) ==
            (if a == [] then [] else [TitleLike(1)])
            + (if b == [] then [] else [SalaryAtLeast(|a| + 1)])
            + (if c == [] then [] else [EquityPositive])
  {
    PushOptional([], a);
    assert [] + a == a;
    PushOptional(a, b);
    PushOptional(a + b, c);
  }

  /** The closed forms the filter builder is checked against are those of the pushed filters. */
  lemma FindAllClosedForms(f: Filters)
    ensures Binds(Requested(f)) == FindAllValues(f)
    ensures RenderPredicates(Predicates(Requested(f))) == FindAllExpressions(f)
  {
    FindAllFilters(f);
    var t: seq<Predicate> := if TitleGiven(f) then [TitleLike(1)] else [];
    var s: seq<Predicate> := if f.minSalary.Some? then [SalaryAtLeast(if TitleGiven(f) then 2 else 1)] else [];
    var e: seq<Predicate> := if EquityRequested(f) then [EquityPositive] else [];
    RenderUpToThree(t, s, e);
  }

  /** Rendering at most one predicate of each of three groups renders each in turn. */
  lemma RenderUpToThree(x: seq<Predicate>, y: seq<Predicate>, z: seq<Predicate>)
    requires |x| <= 1 && |y| <= 1 && |z| <= 1
    ensures RenderPredicates(x + y + z) ==
            (if x == [] then [] else [RenderPredicate(x[0])])
            + (if y == [] then [] else [RenderPredicate(y[0])])
            + (if z == [] then [] else [RenderPredicate(z[0])])
  {
    var rx: seq<string> := if x == [] then [] else [RenderPredicate(x[0])];
    var ry: seq<string> := if y == [] then [] else [RenderPredicate(y[0])];
    assert RenderPredicates(x) == rx by {
      RenderPushOptional([], x);
      assert [] + x == x;
    }
    assert RenderPredicates(x + y) == rx + ry by {
      RenderPushOptional(x, y);
    }
    RenderPushOptional(x + y, z);
  }

  /** Rendering after pushing at most one more predicate. */
  lemma RenderPushOptional(ps: seq<Predicate>, opt: seq<Predicate>)
    requires |opt| <= 1
    ensures RenderPredicates(ps + opt) ==
            RenderPredicates(ps) + (if opt == [] then [] else [RenderPredicate(opt[0])])
  {
    if opt == [] {
      assert ps + opt == ps;
    } else {
      assert opt == [opt[0]];
      RenderPredicatesSnoc(ps, opt[0]);
    }
  }

  /** The query always begins with the fixed `SELECT` and ends with ` ORDER BY title `. */
  lemma FindAllOrderedByTitle(expressions: seq<string>, filterValues: seq<Value>)
    ensures var q := FindAllQuery(expressions, filterValues);
            && |q| >= |FindAllSelect| + |OrderByTitle|
            && q[..|FindAllSelect|] == FindAllSelect
            && q[|q| - |OrderByTitle|..] == OrderByTitle
  {
    var where := if |filterValues| > 0 then " WHERE " + Join(" AND ", expressions) else "";
    var q := FindAllQuery(expressions, filterValues);
    assert q == FindAllSelect + (where + OrderByTitle);
    assert q == (FindAllSelect + where) + OrderByTitle;
  }

  /**
   * The `WHERE` clause is emitted exactly when a title or a minimum salary
   * filter is present, and then it lists every predicate joined by ` AND `.
   */
  lemma FindAllWhereGuard(f: Filters)
    ensures var exprs := RenderPredicates(Predicates(Requested(f)));
            var q := FindAllQuery(exprs, Binds(Requested(f)));
            && (TitleGiven(f) || f.minSalary.Some? ==> q == FindAllSelect + " WHERE " + Join(" AND ", exprs) + OrderByTitle)
            && (!TitleGiven(f) && f.minSalary.None? ==> q == FindAllSelect + OrderByTitle)
  {
    FindAllFilters(f);
    var vals := Binds(Requested(f));
    assert |vals| > 0 <==> TitleGiven(f) || f.minSalary.Some?;
    QueryShape(RenderPredicates(Predicates(Requested(f))), vals);
  }

  /** The two shapes of the query: with the `WHERE` clause when a value is bound, without it otherwise. */
  lemma QueryShape(exprs: seq<string>, vals: seq<Value>)
    ensures |vals| > 0 ==> FindAllQuery(exprs, vals) == FindAllSelect + " WHERE " + Join(" AND ", exprs) + OrderByTitle
    ensures |vals| == 0 ==> FindAllQuery(exprs, vals) == FindAllSelect + OrderByTitle
  {
    if |vals| > 0 {
      assert FindAllSelect + (" WHERE " + Join(" AND ", exprs)) == FindAllSelect + " WHERE " + Join(" AND ", exprs);
    } else {
      assert FindAllSelect + "" == FindAllSelect;
    }
  }

  /**
   * With `hasEquity === true` as the only filter, the `equity > 0` predicate is
   * built but no value is bound, so the `WHERE` guard drops it: the query has
   * no `WHERE` clause at all.
   */
  lemma EquityOnlyFilterDropped(f: Filters)
    requires !TitleGiven(f) && f.minSalary.None? && EquityRequested(f)
    ensures RenderPredicates(Predicates(Requested(f))) == ["equity > 0"]
    ensures Binds(Requested(f)) == []
    ensures FindAllQuery(RenderPredicates(Predicates(Requested(f))), Binds(Requested(f))) == FindAllSelect + OrderByTitle
  {
    FindAllFilters(f);
    var ps := Predicates(Requested(f));
    assert ps == [EquityPositive];
    var exprs := RenderPredicates(ps);
    assert exprs == ["equity > 0"] by {
      assert |exprs| == 1 && exprs[0] == RenderPredicate(EquityPositive);
    }
    assert FindAllQuery(exprs, []) == FindAllSelect + "" + OrderByTitle;
  }

  // ---------------------------------------------------------------------------
  // updata: statement and bind list

  /** What `updata` sends to the database: the statement text and its bind list. */
  datatype UpdateStatement = UpdateStatement(setCols: string, idVarIdx: string, querySql: string, binds: seq<Value>)

  /** The fixed text around the generated parts, line breaks, indentation and typos included. */
  const UpdateHead: string := "\n            UPDATE jobs\n            SET "
  const UpdateWhere: string := "\n            WEHRE id = "
  const UpdateReturning: string := "\n            RETURNING id, title, salary, equity, company_handle AS 'companyHandle"

  /**
   * `updata`'s assembly: the payload's assignments from the helper with no
   * renames, the id placeholder numbered one past the payload's values, and
   * the bind list of those values followed by the id.
   */
  function UpdataQuery(id: Value, data: seq<(string, Value)>): (u: UpdateStatement)
    ensures |u.binds| == |data| + 1
    ensures forall i :: 0 <= i < |data| ==> u.binds[i] == data[i].1
    ensures u.binds[|data|] == id
  {
    var r := SqlForPartialUpdate(data, map[]);
    var idVarIdx := "$" + NatToString(|r.values| + 1);
    UpdateStatement(r.setCols, idVarIdx, UpdateHead + r.setCols + UpdateWhere + idVarIdx + UpdateReturning, r.values + [id])
  }

  /** The id placeholder reads back as the last bind position, which holds the id. */
  lemma UpdataIdPlaceholder(id: Value, data: seq<(string, Value)>)
    ensures var u := UpdataQuery(id, data);
            && |u.idVarIdx| >= 2 && u.idVarIdx[0] == '$'
            && Canonical(u.idVarIdx[1..])
            && DigitsValue(u.idVarIdx[1..]) == |u.binds| == |data| + 1
            && u.binds[DigitsValue(u.idVarIdx[1..]) - 1] == id
  {
    var u := UpdataQuery(id, data);
    assert u.idVarIdx[1..] == NatToString(|data| + 1);
    DecimalRoundTrip(|data| + 1);
  }

  /**
   * The statement text sent to the database holds the `SET` clause right after
   * `SET `, and after `WEHRE id = ` a placeholder whose number is the length of
   * the bind list, the position of the id.
   */
  lemma UpdataQueryText(id: Value, data: seq<(string, Value)>)
    ensures var u := UpdataQuery(id, data);
            var setAt := |UpdateHead|;
            var idAt := setAt + |u.setCols| + |UpdateWhere|;
            && |u.querySql| == idAt + |u.idVarIdx| + |UpdateReturning|
            && u.querySql[..setAt] == UpdateHead
            && u.querySql[setAt..setAt + |u.setCols|] == u.setCols
            && u.querySql[setAt + |u.setCols|..idAt] == UpdateWhere
            && NumberedAfter(u.querySql[idAt..idAt + |u.idVarIdx|], "$", |u.binds|)
            && u.querySql[idAt + |u.idVarIdx|..] == UpdateReturning
  {
    var u := UpdataQuery(id, data);
    assert u.idVarIdx == "$" + NatToString(|data| + 1);
    PrefixedNumber("$", |data| + 1);
    FiveParts(UpdateHead, u.setCols, UpdateWhere, u.idVarIdx, UpdateReturning);
  }

  /** Where each of five concatenated texts sits in the whole. */
  lemma FiveParts(a: string, b: string, c: string, d: string, e: string)
    ensures var q := a + b + c + d + e;
            var i := |a| + |b| + |c|;
            && |q| == i + |d| + |e|
            && q[..|a|] == a && q[|a|..|a| + |b|] == b && q[|a| + |b|..i] == c
            && q[i..i + |d|] == d && q[i + |d|..] == e
  {
    var q := a + b + c + d + e;
    var i := |a| + |b| + |c|;
    assert q[..|a|] == a;
    assert q[|a|..|a| + |b|] == b;
    assert q[|a| + |b|..i] == c;
    assert q[i..i + |d|] == d;
    assert q[i + |d|..] == e;
  }

  /**
   * On an empty payload the model gives an empty `SET` clause, the id on `$1`,
   * and the id as the only bind value.
   */
  lemma UpdataEmptyPayload(id: Value)
    ensures var u := UpdataQuery(id, []);
            u.setCols == "" && u.idVarIdx == "$1" && u.binds == [id]
  {
    var u := UpdataQuery(id, []);
    assert NatToString(1) == "1";
    assert |SqlForPartialUpdate([], map[]).values| == 0;
    assert u.setCols == Join(", ", RenderAll(Assignments([], map[], 1)));
    assert RenderAll(Assignments([], map[], 1)) == [];
  }

  /**
   * With no renames, every column of the `SET` clause is the payload key
   * verbatim, the i-th (0-based) on placeholder i + 1, whose bind value is
   * that key's value; so no field placeholder collides with the id's.
   */
  lemma UpdataSetColsVerbatim(id: Value, data: seq<(string, Value)>)
    requires forall i :: 0 <= i < |data| ==> '"' !in data[i].0
    ensures var u := UpdataQuery(id, data);
            var parsed := ParseSetCols(u.setCols);
            && parsed.Some? && |parsed.value| == |data|
            && forall i :: 0 <= i < |data| ==>
                 && parsed.value[i] == Assign(data[i].0, i + 1)
                 && parsed.value[i].slot < |u.binds|
                 && u.binds[parsed.value[i].slot - 1] == data[i].1
  {
    var noRenames: map<string, string> := map[];
    forall i | 0 <= i < |data| ensures ColumnFor(data[i].0, noRenames) == data[i].0 {
    }
    SetColsAlignment(data, noRenames);
    var u := UpdataQuery(id, data);
    var r := SqlForPartialUpdate(data, noRenames);
    assert u.setCols == r.setCols;
    var parsed := ParseSetCols(r.setCols).value;
    forall i | 0 <= i < |data|
      ensures parsed[i] == Assign(data[i].0, i + 1)
      ensures parsed[i].slot < |u.binds| && u.binds[parsed[i].slot - 1] == data[i].1
    {
      assert parsed[i].column == ColumnFor(data[i].0, noRenames) == data[i].0;
    }
  }

  /** A one-field update for id 7: two placeholders in all, the id's being the second. */
  lemma UpdataOneFieldExample()
    ensures var u := UpdataQuery(Other(7), [("salary", Other(95000))]);
            && u.setCols == "\"salary\"=$1"
            && u.idVarIdx == "$2"
            && u.binds == [Other(95000), Other(7)]
  {
    var data := [("salary", Other(95000))];
    assert Assignments(data, map[], 1) == [Assign("salary", 1)];
    assert NatToString(1) == "1" && NatToString(2) == "2";
    assert RenderAll([Assign("salary", 1)])[0] == "\"salary\"=$1";
  }

  // ---------------------------------------------------------------------------
  // get / updata / remove: a missing row

  /** The outcome of reading the first returned row. */
  datatype Lookup<R> = Found(row: R) | NotFound(id: Value)

  /** The first row when there is one; otherwise the "No job" error for `id`. */
  function FirstRowOrNotFound<R>(rows: seq<R>, id: Value): (r: Lookup<R>)
    ensures r.NotFound? <==> rows == []
    ensures r.Found? ==> r.row == rows[0]
    ensures r.NotFound? ==> r.id == id
  {
    if rows == [] then NotFound(id) else Found(rows[0])
  }
}
