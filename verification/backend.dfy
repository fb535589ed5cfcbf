/**
 The hosted backend's relational side, reduced to what the context's query
 builder calls use: filtered selects, `.single()`, `ORDER BY … DESC`, insert,
 single-row update, delete and upsert on `id`. Faults the backend may report
 for reasons outside this model (network, access rules, unknown columns) are
 explicit `fault` parameters: when one is given, the call fails with it and
 changes nothing.
 */
module Backend {
  import opened Values
  import opened Seqs

  type Table = seq<Row>

  datatype DbError = DbError(code: string, message: string)

  /** The backend's code for "`.single()` found zero rows or more than one". */
  const NoRowsCode: string := "PGRST116"
  /** The message text is the one PostgREST releases of the source's era send. */
  const NoRowsError: DbError := DbError(NoRowsCode, "JSON object requested, multiple (or no) rows returned")

  /** One backend answer: a value, or the error the client library reports. */
  datatype Answer<T> = Ok(value: T) | Fault(error: DbError)

  /** The filters the code chains onto a query: `.eq(column, value)`,
      `.in(column, values)`, and several of them at once. */
  datatype Cond =
    | Eq(column: string, value: Value)
    | In(column: string, values: set<Value>)
    | Both(left: Cond, right: Cond)

  predicate Holds(c: Cond, r: Row) {
    match c
    case Eq(k, v) => Get(r, k) == v
    case In(k, vs) => Get(r, k) in vs
    case Both(a, b) => Holds(a, r) && Holds(b, r)
  }

  /** `select('*')` with the filters of `c`, in table order. */
  function Select(t: Table, c: Cond): Table {
    Filter(t, (r: Row) => Holds(c, r))
  }

  lemma {:induction false} SelectSpec(t: Table, c: Cond)
    ensures forall r :: r in Select(t, c) <==> r in t && Holds(c, r)
    ensures IsSubsequence(Select(t, c), t)
  {
  }

  /** A row appended to a table is selected after the earlier matches,
      exactly when it matches. */
  lemma {:induction false} SelectAppend(t: Table, c: Cond, r: Row)
    ensures Select(t + [r], c) == Select(t, c) + (if Holds(c, r) then [r] else [])
  {
    FilterAppend(t, (x: Row) => Holds(c, x), r);
  }

  /** `select(columns)`: the listed columns only, null where the row has none. */
  function Project(r: Row, columns: set<string>): (p: Row)
    ensures p.Keys == columns
    ensures forall k :: k in columns ==> p[k] == Get(r, k)
  {
    map k | k in columns :: Get(r, k)
  }

  /** A select followed by `.single()`: exactly one matching row, otherwise the
      backend's no-rows error. */
  function SelectSingle(t: Table, c: Cond, fault: Option<DbError>): (a: Answer<Row>)
    ensures a.Ok? <==> fault.None? && |Select(t, c)| == 1
    ensures a.Ok? ==> a.value in t && Holds(c, a.value)
    ensures fault.Some? ==> a == Fault(fault.value)
    ensures fault.None? && a.Fault? ==> a.error == NoRowsError
  {
    if fault.Some? then Fault(fault.value)
    else
      var s := Select(t, c);
      if |s| == 1 then
        assert s[0] in s;
        Ok(s[0])
      else Fault(NoRowsError)
  }

  /** Primary-key discipline: no two rows share an `id`. */
  ghost predicate UniqueIds(t: Table) {
    forall i, j :: 0 <= i < |t| && 0 <= j < |t| && i != j ==> Get(t[i], "id") != Get(t[j], "id")
  }

  /** With unique ids, a lookup by id finds the row holding it. */
  lemma {:induction false} SingleById(t: Table, id: Value, i: nat)
    requires UniqueIds(t)
    requires i < |t| && Get(t[i], "id") == id
    ensures Select(t, Eq("id", id)) == [t[i]]
  {
    if i == 0 {
      FilterNone(t[1..], Eq("id", id));
    } else {
      assert t[0] != t[i] by { assert Get(t[0], "id") != Get(t[i], "id"); }
      assert UniqueIds(t[1..]) by {
        forall a, b | 0 <= a < |t[1..]| && 0 <= b < |t[1..]| && a != b
          ensures Get(t[1..][a], "id") != Get(t[1..][b], "id")
        {
          assert t[1..][a] == t[a + 1] && t[1..][b] == t[b + 1];
        }
      }
      SingleById(t[1..], id, i - 1);
    }
  }

  /** Exactly one row of `t` matches `c`, so the select is that row alone. */
  lemma {:induction false} SingleMatch(t: Table, c: Cond, i: nat)
    requires i < |t| && Holds(c, t[i])
    requires forall j :: 0 <= j < |t| && j != i ==> !Holds(c, t[j])
    ensures Select(t, c) == [t[i]]
  {
    if i == 0 {
      FilterNone(t[1..], c);
    } else {
      assert !Holds(c, t[0]);
      SingleMatch(t[1..], c, i - 1);
    }
  }

  /** No row of `t` matches `c`, so the select is empty. */
  lemma {:induction false} FilterNone(t: Table, c: Cond)
    requires forall j :: 0 <= j < |t| ==> !Holds(c, t[j])
    ensures Select(t, c) == []
  {
    if t != [] {
      assert !Holds(c, t[0]);
      FilterNone(t[1..], c);
    }
  }

  /** `insert([payload]).select().single()`: the backend fills the columns the
      payload leaves out from `defaults` (generated id, timestamps, column
      defaults) and returns the stored row. */
  function Insert(t: Table, payload: Row, defaults: Row, fault: Option<DbError>): (res: (Answer<Row>, Table))
    ensures fault.Some? ==> res == (Fault(fault.value), t)
    ensures fault.None? ==> res.0.Ok? && res.1 == t + [res.0.value]
    ensures fault.None? ==> forall k :: k in payload ==> k in res.0.value && res.0.value[k] == payload[k]
    ensures fault.None? ==> forall k :: k in res.0.value ==> k in payload || k in defaults
  {
    if fault.Some? then (Fault(fault.value), t)
    else
      var row := defaults + payload;
      (Ok(row), t + [row])
  }

  /** Every row matching `c` overlaid with `patch`; the others untouched. */
  function Patch(t: Table, c: Cond, patch: Row): (u: Table)
    ensures |u| == |t|
    ensures forall i :: 0 <= i < |t| && !Holds(c, t[i]) ==> u[i] == t[i]
    ensures forall i :: 0 <= i < |t| && Holds(c, t[i]) ==> u[i] == t[i] + patch
  {
    seq(|t|, i requires 0 <= i < |t| => if Holds(c, t[i]) then t[i] + patch else t[i])
  }

  /** `update(patch).eq(...).select().single()`. The statement succeeds when
      exactly one row matches; with none or several the backend reports the
      no-rows error and the transaction leaves the table as it was. */
  function UpdateOne(t: Table, c: Cond, patch: Row, fault: Option<DbError>): (res: (Answer<Row>, Table))
    ensures res.0.Ok? <==> fault.None? && |Select(t, c)| == 1
    ensures res.0.Fault? ==> res.1 == t
    ensures res.0.Ok? ==> res.1 == Patch(t, c, patch) && res.0.value == Select(t, c)[0] + patch
  {
    if fault.Some? then (Fault(fault.value), t)
    else
      var s := Select(t, c);
      if |s| == 1 then (Ok(s[0] + patch), Patch(t, c, patch))
      else (Fault(NoRowsError), t)
  }

  /** `delete().eq(...)`: every matching row removed, the rest kept in order. */
  function Delete(t: Table, c: Cond, fault: Option<DbError>): (res: (Option<DbError>, Table))
    ensures fault.Some? ==> res == (fault, t)
    ensures fault.None? ==> res.0.None?
    ensures fault.None? ==> forall r :: r in res.1 <==> r in t && !Holds(c, r)
    ensures fault.None? ==> IsSubsequence(res.1, t)
  {
    if fault.Some? then (fault, t)
    else (None, Filter(t, (r: Row) => !Holds(c, r)))
  }

  /** `upsert(payload, { onConflict: 'id' })` without `.select()`: a row with
      the payload's id is overlaid with the payload; otherwise the payload is
      inserted with the backend's `defaults`. No row comes back. */
  function Upsert(t: Table, payload: Row, defaults: Row, fault: Option<DbError>): (res: (Option<DbError>, Table))
    ensures fault.Some? ==> res == (fault, t)
    ensures fault.None? ==> res.0.None?
  {
    if fault.Some? then (fault, t)
    else
      var key := Eq("id", Get(payload, "id"));
      if Select(t, key) != [] then (None, Patch(t, key, payload))
      else (None, t + [defaults + payload])
  }

  /** Overlaying the one row holding `id` with a payload that keeps that id
      leaves the ids unique. */
  lemma {:induction false} PatchKeepsUnique(t: Table, key: Cond, payload: Row, i: nat)
    requires UniqueIds(t)
    requires key.Eq? && key.column == "id" && Get(payload, "id") == key.value
    requires i < |t| && Holds(key, t[i])
    ensures UniqueIds(Patch(t, key, payload))
    ensures i < |Patch(t, key, payload)| && Get(Patch(t, key, payload)[i], "id") == key.value
  {
    var u := Patch(t, key, payload);
    forall a, b | 0 <= a < |u| && 0 <= b < |u| && a != b ensures Get(u[a], "id") != Get(u[b], "id") {
      assert Get(u[a], "id") == Get(t[a], "id");
      assert Get(u[b], "id") == Get(t[b], "id");
    }
  }

  /** Appending a row whose id no row has leaves the ids unique. */
  lemma {:induction false} AppendKeepsUnique(t: Table, row: Row)
    requires UniqueIds(t)
    requires forall j :: 0 <= j < |t| ==> Get(t[j], "id") != Get(row, "id")
    ensures UniqueIds(t + [row])
  {
    var u := t + [row];
    forall a, b | 0 <= a < |u| && 0 <= b < |u| && a != b ensures Get(u[a], "id") != Get(u[b], "id") {
      if a < |t| && b < |t| { assert u[a] == t[a] && u[b] == t[b]; }
      else if a < |t| { assert u[a] == t[a]; }
      else if b < |t| { assert u[b] == t[b]; }
    }
  }

  /** After an upsert the ids are still unique and one row, at index `i`,
      carries every field of the payload. */
  lemma {:induction false} UpsertStores(t: Table, payload: Row, defaults: Row) returns (i: nat)
    requires UniqueIds(t) && "id" in payload
    ensures var u := Upsert(t, payload, defaults, None).1;
            && UniqueIds(u) && i < |u|
            && forall k :: k in payload ==> Get(u[i], k) == payload[k]
  {
    var key := Eq("id", payload["id"]);
    var u := Upsert(t, payload, defaults, None).1;
    if Select(t, key) != [] {
      var r := Select(t, key)[0];
      assert r in Select(t, key);
      SelectSpec(t, key);
      i :| 0 <= i < |t| && t[i] == r;
      PatchKeepsUnique(t, key, payload, i);
      assert u[i] == t[i] + payload;
    } else {
      forall j | 0 <= j < |t| ensures Get(t[j], "id") != payload["id"] {
        SelectSpec(t, key);
        assert t[j] in t;
      }
      AppendKeepsUnique(t, defaults + payload);
      i := |t|;
      assert u[i] == defaults + payload;
    }
  }

  // ---------------------------------------------------------------------------
  // ORDER BY column DESC
  // ---------------------------------------------------------------------------

  /** Lexicographic order on strings. Timestamps written by `toISOString()`
      all have the fixed `YYYY-MM-DDTHH:mm:ss.sssZ` layout, so this is also
      their order in time. */
  predicate LexLe(a: string, b: string) {
    if a == [] then true
    else if b == [] then false
    else if a[0] != b[0] then a[0] < b[0]
    else LexLe(a[1..], b[1..])
  }

  lemma {:induction false} LexLeTotal(a: string, b: string)
    ensures LexLe(a, b) || LexLe(b, a)
  {
    if a != [] && b != [] && a[0] == b[0] {
      LexLeTotal(a[1..], b[1..]);
    }
  }

  lemma {:induction false} LexLeTransitive(a: string, b: string, c: string)
    requires LexLe(a, b) && LexLe(b, c)
    ensures LexLe(a, c)
  {
    if a != [] && b != [] && c != [] && a[0] == b[0] && b[0] == c[0] {
      LexLeTransitive(a[1..], b[1..], c[1..]);
    }
  }

  /** `a` may come before `b` in a descending sort: nulls first (the backend's
      default for DESC), then later timestamps before earlier ones. */
  predicate ComesFirst(a: Value, b: Value) {
    !a.Str? || (b.Str? && LexLe(b.s, a.s))
  }

  lemma {:induction false} ComesFirstTotal(a: Value, b: Value)
    ensures ComesFirst(a, b) || ComesFirst(b, a)
  {
    if a.Str? && b.Str? { LexLeTotal(a.s, b.s); }
  }

  lemma {:induction false} ComesFirstTransitive(a: Value, b: Value, c: Value)
    requires ComesFirst(a, b) && ComesFirst(b, c)
    ensures ComesFirst(a, c)
  {
    if a.Str? && b.Str? && c.Str? { LexLeTransitive(c.s, b.s, a.s); }
  }

  ghost predicate SortedDesc(t: Table, col: string) {
    forall i, j :: 0 <= i < j < |t| ==> ComesFirst(Get(t[i], col), Get(t[j], col))
  }

  /** A row that may precede every row of a sorted table may be put in front. */
  lemma {:induction false} ConsSorted(x: Row, t: Table, col: string)
    requires SortedDesc(t, col)
    requires forall y :: y in t ==> ComesFirst(Get(x, col), Get(y, col))
    ensures SortedDesc([x] + t, col)
  {
    var u := [x] + t;
    forall i, j | 0 <= i < j < |u| ensures ComesFirst(Get(u[i], col), Get(u[j], col)) {
      if i == 0 {
        assert u[j] in t;
      } else {
        assert u[i] == t[i - 1] && u[j] == t[j - 1];
      }
    }
  }

  /** A row that may precede the head of a sorted table may precede all of it. */
  lemma {:induction false} PrecedesAll(x: Row, t: Table, col: string)
    requires SortedDesc(t, col) && t != []
    requires ComesFirst(Get(x, col), Get(t[0], col))
    ensures forall y :: y in t ==> ComesFirst(Get(x, col), Get(y, col))
  {
    forall y | y in t ensures ComesFirst(Get(x, col), Get(y, col)) {
      var k :| 0 <= k < |t| && t[k] == y;
      if k > 0 {
        ComesFirstTransitive(Get(x, col), Get(t[0], col), Get(y, col));
      }
    }
  }

  /** Insert `r` before the first row it may precede. */
  function InsertDesc(r: Row, t: Table, col: string): (u: Table)
    requires SortedDesc(t, col)
    ensures SortedDesc(u, col)
    ensures multiset(u) == multiset(t) + multiset{r}
    ensures |u| == |t| + 1
  {
    if t == [] then [r]
    else if ComesFirst(Get(r, col), Get(t[0], col)) then
      PrecedesAll(r, t, col);
      ConsSorted(r, t, col);
      [r] + t
    else
      var rest := InsertDesc(r, t[1..], col);
      InsertBehind(r, t, rest, col);
      [t[0]] + rest
  }

  /** Putting the head back in front of the rest with `r` inserted. */
  lemma {:induction false} InsertBehind(r: Row, t: Table, rest: Table, col: string)
    requires SortedDesc(t, col) && t != []
    requires !ComesFirst(Get(r, col), Get(t[0], col))
    requires SortedDesc(rest, col) && multiset(rest) == multiset(t[1..]) + multiset{r}
    ensures SortedDesc([t[0]] + rest, col)
    ensures multiset([t[0]] + rest) == multiset(t) + multiset{r}
  {
    InsertDescTail(r, t, rest, col);
    ConsSorted(t[0], rest, col);
    assert t == [t[0]] + t[1..];
  }

  /** When `r` goes behind the head, the head may precede all of the rest. */
  lemma {:induction false} InsertDescTail(r: Row, t: Table, rest: Table, col: string)
    requires SortedDesc(t, col) && t != []
    requires !ComesFirst(Get(r, col), Get(t[0], col))
    requires multiset(rest) == multiset(t[1..]) + multiset{r}
    ensures forall y :: y in rest ==> ComesFirst(Get(t[0], col), Get(y, col))
  {
    ComesFirstTotal(Get(r, col), Get(t[0], col));
    forall y | y in rest ensures ComesFirst(Get(t[0], col), Get(y, col)) {
      assert y in multiset(rest);
      if y != r {
        assert y in multiset(t[1..]);
        var k :| 0 <= k < |t[1..]| && t[1..][k] == y;
        assert t[k + 1] == y;
      }
    }
  }

  /** `.order(col, { ascending: false })`: a permutation of `t` in descending
      order; rows that tie keep their table order. */
  function SortDesc(t: Table, col: string): (u: Table)
    ensures SortedDesc(u, col)
    ensures multiset(u) == multiset(t)
    ensures |u| == |t|
  {
    if t == [] then []
    else
      assert t == [t[0]] + t[1..];
      InsertDesc(t[0], SortDesc(t[1..], col), col)
  }

  lemma {:induction false} SortKeepsRows(t: Table, col: string)
    ensures forall r :: r in SortDesc(t, col) <==> r in t
  {
    var u := SortDesc(t, col);
    assert forall r :: r in u <==> r in multiset(u);
    assert forall r :: r in t <==> r in multiset(t);
  }

  /** Sorting an empty result gives an empty result (and only then). */
  lemma {:induction false} SortEmpty(t: Table, col: string)
    ensures SortDesc(t, col) == [] <==> t == []
  {
  }
}
