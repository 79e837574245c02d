/**
 * `sqlForPartialUpdate`: builds the column-assignment part of an SQL
 * `UPDATE ... SET` statement from an ordered payload of field names and new
 * values, renaming fields through a field-to-column map, together with the
 * ordered list of bind values.
 *
 * A decoder for the clause's text (`ParseSetCols`) is the partner of the
 * builder: decoding the clause gives back, in order, every column together with
 * the placeholder number that refers to its value.
 */
module SqlHelpers {
  import opened Values
  import opened SqlText

  /** One `"column"=$slot` assignment; `slot` is a 1-based bind-value position. */
  datatype Assign = Assign(column: string, slot: nat)

  /** The record `{ setCols, values }` the helper returns. */
  datatype PartialUpdate = PartialUpdate(setCols: string, values: seq<Value>)

  /** The column a payload field is written to: its mapped name, else the field name itself. */
  function ColumnFor(key: string, jsToSql: map<string, string>): (c: string)
    ensures key in jsToSql ==> c == jsToSql[key]
    ensures key !in jsToSql ==> c == key
  {
    if key in jsToSql then jsToSql[key] else key
  }

  /**
   * The `"column"=$slot` fragment of one assignment: the quoted column, then a
   * placeholder whose decimal number reads back as the slot.
   */
  function RenderAssign(a: Assign): (s: string)
    ensures NumberedAfter(s, "\"" + a.column + "\"=$", a.slot)
  {
    PrefixedNumber("\"" + a.column + "\"=$", a.slot);
    "\"" + a.column + "\"=$" + NatToString(a.slot)
  }

  function RenderAll(assigns: seq<Assign>): (parts: seq<string>)
    ensures |parts| == |assigns|
  {
    seq(|assigns|, i requires 0 <= i < |assigns| => RenderAssign(assigns[i]))
  }

  /**
   * The assignments for `data`, numbered from `first`: each field keeps its
   * position, is renamed when the map has it and is kept verbatim otherwise.
   */
  function Assignments(data: seq<(string, Value)>, jsToSql: map<string, string>, first: nat): (r: seq<Assign>)
    ensures |r| == |data|
    ensures forall i :: 0 <= i < |data| ==>
              r[i].slot == first + i &&
              r[i].column == (if data[i].0 in jsToSql then jsToSql[data[i].0] else data[i].0)
    decreases |data|
  {
    if data == [] then []
    else [Assign(ColumnFor(data[0].0, jsToSql), first)] + Assignments(data[1..], jsToSql, first + 1)
  }

  /** The payload's values, in payload order. */
  function ValuesOf(data: seq<(string, Value)>): (vs: seq<Value>)
    ensures |vs| == |data|
    ensures forall i :: 0 <= i < |data| ==> vs[i] == data[i].1
    decreases |data|
  {
    if data == [] then [] else [data[0].1] + ValuesOf(data[1..])
  }

  /**
   * The helper itself: the assignments joined with `", "` (no `SET` keyword),
   * and the bind values in payload order.
   */
  function SqlForPartialUpdate(dataToUpdate: seq<(string, Value)>, jsToSql: map<string, string>): (r: PartialUpdate)
    ensures |r.values| == |dataToUpdate|
    ensures forall i :: 0 <= i < |dataToUpdate| ==> r.values[i] == dataToUpdate[i].1
  {
    PartialUpdate(Join(", ", RenderAll(Assignments(dataToUpdate, jsToSql, 1))), ValuesOf(dataToUpdate))
  }

  /**
   * The clause, written out fragment by fragment: the i-th field (0-based)
   * becomes its quoted column, `=$` and the number i + 1.
   */
  lemma SetColsFragments(dataToUpdate: seq<(string, Value)>, jsToSql: map<string, string>)
    ensures SqlForPartialUpdate(dataToUpdate, jsToSql).setCols ==
            Join(", ", seq(|dataToUpdate|, i requires 0 <= i < |dataToUpdate| =>
                           "\"" + ColumnFor(dataToUpdate[i].0, jsToSql) + "\"=$" + NatToString(i + 1)))
  {
    var assigns := Assignments(dataToUpdate, jsToSql, 1);
    assert RenderAll(assigns) ==
           seq(|dataToUpdate|, i requires 0 <= i < |dataToUpdate| =>
               "\"" + ColumnFor(dataToUpdate[i].0, jsToSql) + "\"=$" + NatToString(i + 1));
  }

  // ---------------------------------------------------------------------------
  // Decoding the clause

  /** The first index at or after `i` holding a double quote, or `|s|` when there is none. */
  function QuoteAt(s: string, i: nat): (j: nat)
    requires i <= |s|
    ensures i <= j <= |s|
    ensures j < |s| ==> s[j] == '"'
    ensures forall k :: i <= k < j ==> s[k] != '"'
    decreases |s| - i
  {
    if i == |s| || s[i] == '"' then i else QuoteAt(s, i + 1)
  }

  /** The end of the run of digits that starts at `i`. */
  function DigitsEnd(s: string, i: nat): (j: nat)
    requires i <= |s|
    ensures i <= j <= |s|
    ensures j < |s| ==> !IsDigit(s[j])
    ensures forall k :: i <= k < j ==> IsDigit(s[k])
    decreases |s| - i
  {
    if i == |s| || !IsDigit(s[i]) then i else DigitsEnd(s, i + 1)
  }

  /** Reads one `"column"=$digits` from the front of `s`; returns it and what follows. */
  function ParseAssign(s: string): (r: Option<(Assign, string)>)
    ensures r.Some? ==> |r.value.1| < |s|
  {
    if |s| == 0 || s[0] != '"' then None
    else
      var q := QuoteAt(s, 1);
      if q + 2 >= |s| || s[q + 1] != '=' || s[q + 2] != '$' then None
      else
        var d := DigitsEnd(s, q + 3);
        if d == q + 3 then None
        else
          var digits := s[q + 3..d];
          assert AllDigits(digits) by {
            forall k | 0 <= k < |digits| ensures IsDigit(digits[k]) {
              assert digits[k] == s[q + 3 + k];
            }
          }
          Some((Assign(s[1..q], DigitsValue(digits)), s[d..]))
  }

  /** Reads a non-empty `", "`-separated list of assignments that fills all of `s`. */
  function ParseAssignList(s: string): (r: Option<seq<Assign>>)
    decreases |s|
  {
    match ParseAssign(s)
    case None => None
    case Some((a, rest)) =>
      if rest == "" then Some([a])
      else if |rest| >= 2 && rest[..2] == ", " then
        match ParseAssignList(rest[2..])
        case None => None
        case Some(more) => Some([a] + more)
      else None
  }

  /** Decodes a whole `setCols` text; the empty text is the empty list. */
  function ParseSetCols(s: string): (r: Option<seq<Assign>>) {
    if s == "" then Some([]) else ParseAssignList(s)
  }

  lemma ParseAssignOfRender(a: Assign, tail: string)
    requires '"' !in a.column
    requires tail == "" || tail[0] == ','
    ensures ParseAssign(RenderAssign(a) + tail) == Some((a, tail))
  {
    var c := a.column;
    var ds := NatToString(a.slot);
    var s := RenderAssign(a) + tail;
    assert s == ['"'] + c + ['"', '=', '$'] + ds + tail;
    var q := QuoteAt(s, 1);
    assert s[1 + |c|] == '"';
    forall k | 1 <= k < 1 + |c| ensures s[k] != '"' {
      assert s[k] == c[k - 1];
    }
    assert q == 1 + |c|;
    assert s[q + 1] == '=' && s[q + 2] == '$';
    var d := DigitsEnd(s, q + 3);
    forall k | q + 3 <= k < q + 3 + |ds| ensures IsDigit(s[k]) {
      assert s[k] == ds[k - (q + 3)];
    }
    if tail != "" {
      assert s[q + 3 + |ds|] == tail[0];
    }
    assert d == q + 3 + |ds|;
    assert s[1..q] == c;
    assert s[q + 3..d] == ds;
    DecimalRoundTrip(a.slot);
    assert s[d..] == tail;
  }

  lemma HeadTail<T>(s: seq<T>)
    requires |s| > 0
    ensures [s[0]] + s[1..] == s
  {
  }

  /** One step of list decoding: an assignment, `", "`, then the rest of the list. */
  lemma ParseAssignListCons(s: string, a: Assign, rest: string, more: seq<Assign>)
    requires ParseAssign(s) == Some((a, rest))
    requires |rest| >= 2 && rest[..2] == ", "
    requires ParseAssignList(rest[2..]) == Some(more)
    ensures ParseAssignList(s) == Some([a] + more)
  {
  }

  lemma {:induction false} ParseAssignListOfRender(assigns: seq<Assign>)
    requires |assigns| > 0
    requires forall i :: 0 <= i < |assigns| ==> '"' !in assigns[i].column
    ensures ParseAssignList(Join(", ", RenderAll(assigns))) == Some(assigns)
  {
    var parts := RenderAll(assigns);
    if |assigns| == 1 {
      ParseAssignOfRender(assigns[0], "");
      assert Join(", ", parts) == RenderAssign(assigns[0]) + "";
      assert assigns == [assigns[0]];
    } else {
      var tailAssigns := assigns[1..];
      var restJoined := Join(", ", RenderAll(tailAssigns));
      assert parts[1..] == RenderAll(tailAssigns);
      var rest := ", " + restJoined;
      assert Join(", ", parts) == RenderAssign(assigns[0]) + rest;
      ParseAssignOfRender(assigns[0], rest);
      ParseAssignListOfRender(tailAssigns);
      assert rest[2..] == restJoined;
      ParseAssignListCons(Join(", ", parts), assigns[0], rest, tailAssigns);
      HeadTail(assigns);
    }
  }

  /** Decoding a rendered clause gives back the assignments, for any list of quote-free columns. */
  lemma ParseSetColsOfRender(assigns: seq<Assign>)
    requires forall i :: 0 <= i < |assigns| ==> '"' !in assigns[i].column
    ensures ParseSetCols(Join(", ", RenderAll(assigns))) == Some(assigns)
  {
    if |assigns| > 0 {
      var parts := RenderAll(assigns);
      assert |parts[0]| > 0;
      ParseAssignListOfRender(assigns);
    }
  }

  /**
   * Placeholder/value alignment of the helper's result: the clause decodes to
   * one assignment per payload field, in payload order; the i-th names the
   * field's column (renamed or verbatim) and holds placeholder i + 1, and bind
   * value number i + 1 is that field's value.
   */
  lemma SetColsAlignment(dataToUpdate: seq<(string, Value)>, jsToSql: map<string, string>)
    requires forall i :: 0 <= i < |dataToUpdate| ==> '"' !in ColumnFor(dataToUpdate[i].0, jsToSql)
    ensures var r := SqlForPartialUpdate(dataToUpdate, jsToSql);
            var parsed := ParseSetCols(r.setCols);
            && parsed.Some?
            && |parsed.value| == |r.values| == |dataToUpdate|
            && forall i :: 0 <= i < |dataToUpdate| ==>
                 && parsed.value[i].column == ColumnFor(dataToUpdate[i].0, jsToSql)
                 && parsed.value[i].slot == i + 1
                 && r.values[parsed.value[i].slot - 1] == dataToUpdate[i].1
  {
    ParseSetColsOfRender(Assignments(dataToUpdate, jsToSql, 1));
  }

  lemma RenderedPlaceholders()
    ensures RenderAll([Assign("lastName", 1), Assign("first_name", 2)])
            == ["\"lastName\"=$1", "\"first_name\"=$2"]
  {
    var r := RenderAll([Assign("lastName", 1), Assign("first_name", 2)]);
    assert NatToString(1) == "1" && NatToString(2) == "2";
    assert r[0] == "\"lastName\"=$1";
    assert r[1] == "\"first_name\"=$2";
  }

  lemma ExampleAssignments()
    ensures Assignments([("lastName", Text("Canada")), ("firstName", Text("Cynthia"))],
                        map["firstName" := "first_name"], 1)
            == [Assign("lastName", 1), Assign("first_name", 2)]
  {
    var m := map["firstName" := "first_name"];
    assert "firstName" in m && "lastName" !in m;
  }

  lemma ExampleJoin()
    ensures Join(", ", ["\"lastName\"=$1", "\"first_name\"=$2"]) == "\"lastName\"=$1, \"first_name\"=$2"
  {
    var parts := ["\"lastName\"=$1", "\"first_name\"=$2"];
    assert parts[1..] == [parts[1]];
  }

  /** The case the helper's test pins down: one renamed field and one kept verbatim. */
  lemma TwoFieldExample()
    ensures SqlForPartialUpdate([("lastName", Text("Canada")), ("firstName", Text("Cynthia"))],
                                map["firstName" := "first_name"])
            == PartialUpdate("\"lastName\"=$1, \"first_name\"=$2", [Text("Canada"), Text("Cynthia")])
  {
    ExampleAssignments();
    RenderedPlaceholders();
    ExampleJoin();
  }
}
