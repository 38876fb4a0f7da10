/** The action an audited request is recorded under. */
module AuditActions {
  import opened Wrappers
  import opened Collections

  datatype Row = Row(prefix: string, methods: seq<(string, string)>)

  const ACTION_MAP: seq<Row> := [
    Row("auth/login", [("POST", "auth.login")]),
    Row("punches/correct", [("POST", "punch.corrected")]),
    Row("exports/punches", [("GET", "export.downloaded")]),
    Row("settings", [("PUT", "settings.updated")]),
    Row("employees",
        [("POST", "employee.created"), ("PUT", "employee.updated"), ("DELETE", "employee.deactivated")]),
    Row("enrollments", [("POST", "enrollment.created")]),
    Row("users", [("POST", "user.created"), ("PUT", "user.updated"), ("DELETE", "user.deleted")]),
    Row("endpoints",
        [("POST", "endpoint.created"), ("PUT", "endpoint.updated"), ("DELETE", "endpoint.deleted")]),
    Row("api-keys", [("POST", "apikey.created"), ("DELETE", "apikey.revoked")]),
    Row("devices", [("POST", "device.created"), ("PUT", "device.updated"), ("DELETE", "device.deleted")])
  ]

  const API := "/api/"
  const EXPORTS := "exports/punches"

  // ── Characters ──

  function LowerChar(c: char): char {
    if 'A' <= c <= 'Z' then c - 'A' + 'a' else c
  }

  function Lower(s: string): string {
    seq(|s|, i requires 0 <= i < |s| => LowerChar(s[i]))
  }

  predicate EqIgnoreCase(a: string, b: string) {
    Lower(a) == Lower(b)
  }

  /** The text without the prefix, however often it is repeated. */
  function TrimStartMatches(s: string, prefix: string): (r: string)
    requires prefix != ""
    ensures !(prefix <= r)
    decreases |s|
  {
    if prefix <= s then TrimStartMatches(s[|prefix|..], prefix) else s
  }

  function Times(prefix: string, n: nat): string {
    if n == 0 then "" else prefix + Times(prefix, n - 1)
  }

  /** All repetitions go and what follows them stays. */
  lemma {:induction false} TrimsRepetitions(prefix: string, n: nat, rest: string)
    requires prefix != "" && !(prefix <= rest)
    ensures TrimStartMatches(Times(prefix, n) + rest, prefix) == rest
  {
    if n == 0 {
      assert Times(prefix, 0) + rest == rest;
    } else {
      TrimsRepetitions(prefix, n - 1, rest);
      var s := Times(prefix, n) + rest;
      assert s == prefix + (Times(prefix, n - 1) + rest);
      assert s[|prefix|..] == Times(prefix, n - 1) + rest;
    }
  }

  function TrimApi(path: string): string {
    TrimStartMatches(path, API)
  }

  // ── The search ──

  /** The action of the first method of a row that matches. */
  function ActionIn(methods: seq<(string, string)>, verb: string): Option<string> {
    if methods == [] then None
    else if EqIgnoreCase(verb, methods[0].0) then Some(methods[0].1)
    else ActionIn(methods[1..], verb)
  }

  /** The action of the first row that has one for this request. */
  function Mapped(table: seq<Row>, verb: string, path: string): Option<string> {
    if table == [] then None
    else if table[0].prefix <= path && ActionIn(table[0].methods, verb).Some? then ActionIn(table[0].methods, verb)
    else Mapped(table[1..], verb, path)
  }

  predicate IsWrite(verb: string) {
    verb == "POST" || verb == "PUT" || verb == "PATCH" || verb == "DELETE"
  }

  function Action(table: seq<Row>, verb: string, path: string): Option<string> {
    var mapped := Mapped(table, verb, TrimApi(path));
    if mapped.Some? then mapped else if IsWrite(verb) then Some("api." + Lower(verb)) else None
  }

  method FindIn(methods: seq<(string, string)>, verb: string) returns (action: Option<string>)
    ensures action == ActionIn(methods, verb)
  {
    for j := 0 to |methods|
      invariant ActionIn(methods, verb) == ActionIn(methods[j..], verb)
    {
      if EqIgnoreCase(verb, methods[j].0) { return Some(methods[j].1); }
      assert methods[j..][1..] == methods[j + 1..];
    }
    return None;
  }

  method DeriveAction(verb: string, path: string) returns (action: Option<string>)
    ensures action == Action(ACTION_MAP, verb, path)
  {
    action := Search(ACTION_MAP, verb, TrimApi(path));
    if action.None? && IsWrite(verb) {
      action := Some("api." + Lower(verb));
    }
  }

  method Search(table: seq<Row>, verb: string, path: string) returns (action: Option<string>)
    ensures action == Mapped(table, verb, path)
  {
    for i := 0 to |table|
      invariant Mapped(table, verb, path) == Mapped(table[i..], verb, path)
    {
      if table[i].prefix <= path {
        action := FindIn(table[i].methods, verb);
        if action.Some? { return; }
      }
      assert table[i..][1..] == table[i + 1..];
    }
    return None;
  }

  // ── The row that matches ──

  /** No prefix in the table is a prefix of another. */
  ghost predicate PrefixFree(table: seq<Row>) {
    forall i, j :: 0 <= i < |table| && 0 <= j < |table| && i != j ==> !(table[i].prefix <= table[j].prefix)
  }

  lemma {:induction false} OneRowMatches(table: seq<Row>, path: string, i: nat, j: nat)
    requires PrefixFree(table) && i < |table| && j < |table| && i != j && table[i].prefix <= path
    ensures !(table[j].prefix <= path)
  {
    assert !(table[i].prefix <= table[j].prefix) && !(table[j].prefix <= table[i].prefix);
    if table[j].prefix <= path {
      PrefixesOfOnePath(table[i].prefix, table[j].prefix, path);
    }
  }

  lemma {:induction false} PrefixesOfOnePath(p: string, q: string, path: string)
    requires p <= path && q <= path
    ensures p <= q || q <= p
  {
    assert p == path[..|p|] && q == path[..|q|];
  }

  lemma {:induction false} NoRowMatches(table: seq<Row>, verb: string, path: string)
    requires forall r :: r in table ==> !(r.prefix <= path)
    ensures Mapped(table, verb, path) == None
  {
    if table != [] {
      assert table[0] in table;
      NoRowMatches(table[1..], verb, path);
    }
  }

  /** In a prefix-free table the search finds what the one matching row says. */
  lemma {:induction false} SearchIsTheMatchingRow(table: seq<Row>, verb: string, path: string, row: Row)
    requires PrefixFree(table) && row in table && row.prefix <= path
    ensures Mapped(table, verb, path) == ActionIn(row.methods, verb)
  {
    var i :| 0 <= i < |table| && table[i] == row;
    var rest := table[1..];
    assert forall k :: 0 <= k < |rest| ==> rest[k] == table[k + 1];
    if i == 0 {
      forall r | r in rest
        ensures !(r.prefix <= path)
      {
        var k :| 0 <= k < |rest| && rest[k] == r;
        OneRowMatches(table, path, 0, k + 1);
      }
      NoRowMatches(rest, verb, path);
    } else {
      OneRowMatches(table, path, i, 0);
      assert rest[i - 1] == row;
      SearchIsTheMatchingRow(rest, verb, path, row);
    }
  }

  lemma {:induction false} PermutationKeepsPrefixFree(xs: seq<Row>, ys: seq<Row>)
    requires multiset(xs) == multiset(ys) && PrefixFree(xs)
    ensures PrefixFree(ys)
  {
    assert Distinct(xs);
    PermutationKeepsDistinct(xs, ys);
    PermutationKeepsMembers(xs, ys);
    forall i, j | 0 <= i < |ys| && 0 <= j < |ys| && i != j
      ensures !(ys[i].prefix <= ys[j].prefix)
    {
      assert ys[i] in xs && ys[j] in xs;
      var k :| 0 <= k < |xs| && xs[k] == ys[i];
      var l :| 0 <= l < |xs| && xs[l] == ys[j];
      assert k != l;
    }
  }

  /** The order of a prefix-free table does not matter. */
  lemma {:induction false} TableOrderIsIrrelevant(xs: seq<Row>, ys: seq<Row>, verb: string, path: string)
    requires multiset(xs) == multiset(ys) && PrefixFree(xs)
    ensures Action(ys, verb, path) == Action(xs, verb, path)
  {
    PermutationKeepsPrefixFree(xs, ys);
    PermutationKeepsMembers(xs, ys);
    var p := TrimApi(path);
    if row :| row in xs && row.prefix <= p {
      SearchIsTheMatchingRow(xs, verb, p, row);
      SearchIsTheMatchingRow(ys, verb, p, row);
    } else {
      NoRowMatches(xs, verb, p);
      NoRowMatches(ys, verb, p);
    }
  }

  // ── Which action ──

  /** The same letters, in capitals or not. */
  predicate SameLetter(a: char, b: char) {
    a == b || ('A' <= a <= 'Z' && b as int == a as int + 32) || ('A' <= b <= 'Z' && a as int == b as int + 32)
  }

  lemma {:induction false} SameLetterIff(a: char, b: char)
    ensures LowerChar(a) == LowerChar(b) <==> SameLetter(a, b)
  {
  }

  lemma {:induction false} EqIgnoreCaseIff(a: string, b: string)
    ensures EqIgnoreCase(a, b) <==> |a| == |b| && forall i :: 0 <= i < |a| ==> SameLetter(a[i], b[i])
  {
    if EqIgnoreCase(a, b) {
      assert |a| == |Lower(a)| == |Lower(b)| == |b|;
      forall i | 0 <= i < |a|
        ensures SameLetter(a[i], b[i])
      {
        assert Lower(a)[i] == Lower(b)[i];
        SameLetterIff(a[i], b[i]);
      }
    } else if |a| == |b| {
      var i :| 0 <= i < |a| && Lower(a)[i] != Lower(b)[i];
      SameLetterIff(a[i], b[i]);
    }
  }

  /** No two verbs of the row are the same in any capitals. */
  ghost predicate VerbsDiffer(methods: seq<(string, string)>) {
    forall i, j :: 0 <= i < j < |methods| ==> !EqIgnoreCase(methods[i].0, methods[j].0)
  }

  lemma {:induction false} OwnAction(methods: seq<(string, string)>, verb: string, k: nat)
    requires VerbsDiffer(methods) && k < |methods| && EqIgnoreCase(verb, methods[k].0)
    ensures ActionIn(methods, verb) == Some(methods[k].1)
  {
    if k > 0 {
      assert !EqIgnoreCase(methods[0].0, methods[k].0);
      assert forall i :: 0 <= i < |methods[1..]| ==> methods[1..][i] == methods[i + 1];
      OwnAction(methods[1..], verb, k - 1);
    }
  }

  /** In a prefix-free table a request is recorded under the action its row lists with its verb. */
  lemma {:induction false} ListedActionIsRecorded(table: seq<Row>, row: Row, k: nat, verb: string, path: string)
    requires PrefixFree(table) && row in table && row.prefix <= TrimApi(path)
    requires VerbsDiffer(row.methods) && k < |row.methods| && EqIgnoreCase(verb, row.methods[k].0)
    ensures Action(table, verb, path) == Some(row.methods[k].1)
  {
    SearchIsTheMatchingRow(table, verb, TrimApi(path), row);
    OwnAction(row.methods, verb, k);
  }

  // ── The shipped table ──

  lemma {:induction false} PrefixesDiffer(table: seq<Row>)
    requires forall r :: r in table ==> |r.prefix| >= 3
    requires forall i, j :: 0 <= i < j < |table| ==> table[i].prefix[..3] != table[j].prefix[..3]
    ensures PrefixFree(table)
  {
    forall i, j | 0 <= i < |table| && 0 <= j < |table| && i != j
      ensures !(table[i].prefix <= table[j].prefix)
    {
      assert table[i] in table && table[j] in table;
      StartsDiffer(table[i].prefix, table[j].prefix);
    }
  }

  lemma {:induction false} StartsDiffer(p: string, q: string)
    requires |p| >= 3 && |q| >= 3 && p[..3] != q[..3]
    ensures !(p <= q)
  {
    assert p[..3] == [p[0], p[1], p[2]] && q[..3] == [q[0], q[1], q[2]];
  }

  lemma {:induction false} ShippedTableIsPrefixFree()
    ensures PrefixFree(ACTION_MAP)
  {
    var starts := ["aut", "pun", "exp", "set", "emp", "enr", "use", "end", "api", "dev"];
    assert forall i :: 0 <= i < 10 ==> |ACTION_MAP[i].prefix| >= 3 && ACTION_MAP[i].prefix[..3] == starts[i];
    assert forall i, j :: 0 <= i < j < 10 ==> starts[i] != starts[j];
    PrefixesDiffer(ACTION_MAP);
  }

  /** No permutation of the shipped table changes an action. */
  lemma {:induction false} ShippedTableMayBeReordered(table: seq<Row>, verb: string, path: string)
    requires multiset(table) == multiset(ACTION_MAP)
    ensures Action(table, verb, path) == Action(ACTION_MAP, verb, path)
  {
    ShippedTableIsPrefixFree();
    TableOrderIsIrrelevant(ACTION_MAP, table, verb, path);
  }

  lemma {:induction false} ShippedVerbsDiffer(row: Row)
    requires row in ACTION_MAP
    ensures VerbsDiffer(row.methods)
  {
    SmallVerbs();
    assert forall i :: 0 <= i < |row.methods| ==>
        row.methods[i].0 == (if i == 2 then "DELETE" else if i == 1 then row.methods[1].0 else row.methods[0].0);
    assert |row.methods| > 1 ==> row.methods[0].0 == "POST" && row.methods[1].0 in ["PUT", "DELETE"];
    assert |row.methods| > 2 ==> row.methods[1].0 == "PUT";
  }

  /** Every entry of the shipped table is recorded under its own action, at any path below it and in any capitals. */
  lemma {:induction false} ShippedEntryIsRecorded(row: Row, k: nat, verb: string, rest: string)
    requires row in ACTION_MAP && k < |row.methods| && EqIgnoreCase(verb, row.methods[k].0)
    ensures Action(ACTION_MAP, verb, "/api/" + row.prefix + rest) == Some(row.methods[k].1)
  {
    PrefixStaysAfterTrim(row, rest);
    ShippedTableIsPrefixFree();
    ShippedVerbsDiffer(row);
    ListedActionIsRecorded(ACTION_MAP, row, k, verb, "/api/" + row.prefix + rest);
  }

  lemma {:induction false} PrefixStaysAfterTrim(row: Row, rest: string)
    requires row in ACTION_MAP
    ensures row.prefix <= TrimApi("/api/" + row.prefix + rest)
  {
    var path := row.prefix + rest;
    assert row.prefix[0] != '/';
    assert path[0] == row.prefix[0];
    assert Times("/api/", 1) == "/api/" + Times("/api/", 0) == "/api/";
    TrimsRepetitions("/api/", 1, path);
    assert "/api/" + row.prefix + rest == Times("/api/", 1) + path;
  }

  /** Creating an employee is recorded as that. */
  lemma {:induction false} CreationIsRecorded()
    ensures Action(ACTION_MAP, "POST", "/api/employees") == Some("employee.created")
    ensures Action(ACTION_MAP, "put", "/api/employees/7") == Some("employee.updated")
  {
    var row := ACTION_MAP[4];
    SmallVerbs();
    assert Lower("put") == "put";
    assert row in ACTION_MAP && "/api/" + row.prefix + "" == "/api/employees";
    assert "/api/" + row.prefix + "/7" == "/api/employees/7";
    ShippedEntryIsRecorded(row, 0, "POST", "");
    ShippedEntryIsRecorded(row, 1, "put", "/7");
  }

  lemma {:induction false} LowerKeepsOtherStart(a: string, b: string)
    requires a != "" && b != "" && LowerChar(a[0]) != LowerChar(b[0])
    ensures !EqIgnoreCase(a, b)
  {
    assert Lower(a)[0] == LowerChar(a[0]) && Lower(b)[0] == LowerChar(b[0]);
  }

  lemma {:induction false} NoGetAmongWrites(methods: seq<(string, string)>, verb: string)
    requires EqIgnoreCase(verb, "GET")
    requires forall m :: m in methods ==> m.0 == "POST" || m.0 == "PUT" || m.0 == "DELETE"
    ensures ActionIn(methods, verb) == None
  {
    if methods != [] {
      assert methods[0] in methods;
      assert Lower(verb)[0] == Lower("GET")[0] == 'g';
      LowerKeepsOtherStart(verb, methods[0].0);
      NoGetAmongWrites(methods[1..], verb);
    }
  }

  lemma {:induction false} OtherRowsWrite(row: Row)
    requires row in ACTION_MAP && row != ACTION_MAP[2]
    ensures row.prefix != EXPORTS
    ensures forall m :: m in row.methods ==> m.0 == "POST" || m.0 == "PUT" || m.0 == "DELETE"
  {
    assert EXPORTS[0] == 'e' && EXPORTS[1] == 'x';
  }

  lemma {:induction false} OnlyExportsHasGet(row: Row, verb: string)
    requires row in ACTION_MAP && EqIgnoreCase(verb, "GET")
    ensures ActionIn(row.methods, verb) == if row.prefix == EXPORTS then Some("export.downloaded") else None
  {
    if row != ACTION_MAP[2] {
      OtherRowsWrite(row);
      NoGetAmongWrites(row.methods, verb);
    }
  }

  /** The table has a row for the path that lists the verb, in any capitals. */
  ghost predicate IsListed(table: seq<Row>, verb: string, path: string) {
    exists r, m :: r in table && r.prefix <= path && m in r.methods && EqIgnoreCase(verb, m.0)
  }

  lemma {:induction false} ActionInIff(methods: seq<(string, string)>, verb: string)
    ensures ActionIn(methods, verb).Some? <==> exists m :: m in methods && EqIgnoreCase(verb, m.0)
  {
    if methods != [] {
      ActionInIff(methods[1..], verb);
      assert methods == [methods[0]] + methods[1..];
    }
  }

  lemma {:induction false} MappedIff(table: seq<Row>, verb: string, path: string)
    ensures Mapped(table, verb, path).Some? <==> IsListed(table, verb, path)
  {
    if table != [] {
      MappedIff(table[1..], verb, path);
      ActionInIff(table[0].methods, verb);
      assert table == [table[0]] + table[1..];
      if m :| m in table[0].methods && EqIgnoreCase(verb, m.0) {
        assert table[0].prefix <= path ==> IsListed(table, verb, path);
      }
    }
  }

  /**
   A request has an action if and only if its verb is a write in capitals or some row for its
   path lists the verb in any capitals.
   */
  lemma {:induction false} AuditedIff(table: seq<Row>, verb: string, path: string)
    ensures Action(table, verb, path).Some? <==> IsWrite(verb) || IsListed(table, verb, TrimApi(path))
  {
    MappedIff(table, verb, TrimApi(path));
  }

  /** A request the table does not place is recorded under its own verb if that is a write in capitals, and else not. */
  lemma {:induction false} UnplacedRequest(table: seq<Row>, verb: string, path: string)
    requires forall r :: r in table ==> !(r.prefix <= TrimApi(path))
    ensures Action(table, verb, path) ==
              if verb == "POST" then Some("api.post")
              else if verb == "PUT" then Some("api.put")
              else if verb == "PATCH" then Some("api.patch")
              else if verb == "DELETE" then Some("api.delete")
              else None
  {
    NoRowMatches(table, verb, TrimApi(path));
    SmallVerbs();
    assert "api." + "post" == "api.post" && "api." + "put" == "api.put";
    assert "api." + "patch" == "api.patch" && "api." + "delete" == "api.delete";
  }

  lemma {:induction false} SmallVerbs()
    ensures Lower("POST") == "post" && Lower("PUT") == "put" && Lower("PATCH") == "patch" && Lower("DELETE") == "delete"
  {
  }

  /** Every write has an action; a read has one exactly under the punch exports. */
  lemma {:induction false} WritesAreAudited(verb: string, path: string)
    ensures IsWrite(verb) ==> Action(ACTION_MAP, verb, path).Some?
    ensures verb == "GET" ==>
      Action(ACTION_MAP, verb, path) == if EXPORTS <= TrimApi(path) then Some("export.downloaded") else None
  {
    if verb == "GET" {
      var p := TrimApi(path);
      assert verb[0] == 'G' && !IsWrite(verb);
      ShippedTableIsPrefixFree();
      if row :| row in ACTION_MAP && row.prefix <= p {
        SearchIsTheMatchingRow(ACTION_MAP, verb, p, row);
        OnlyExportsHasGet(row, verb);
        if EXPORTS <= p {
          ExportsIsInTable();
          SearchIsTheMatchingRow(ACTION_MAP, verb, p, ACTION_MAP[2]);
          OnlyExportsHasGet(ACTION_MAP[2], verb);
        }
      } else {
        ExportsIsInTable();
        NoRowMatches(ACTION_MAP, verb, p);
      }
    }
  }

  lemma {:induction false} OnlyListedVerbs(table: seq<Row>, verb: string, path: string)
    requires forall r, m :: r in table && m in r.methods ==> !EqIgnoreCase(verb, m.0)
    ensures Mapped(table, verb, path) == None
  {
    if table != [] {
      assert table[0] in table;
      NotListed(table[0].methods, verb);
      OnlyListedVerbs(table[1..], verb, path);
    }
  }

  lemma {:induction false} NotListed(methods: seq<(string, string)>, verb: string)
    requires forall m :: m in methods ==> !EqIgnoreCase(verb, m.0)
    ensures ActionIn(methods, verb) == None
  {
    if methods != [] {
      NotListed(methods[1..], verb);
    }
  }

  /** Not one of the verbs the table lists, in any capitals. */
  ghost predicate IsUnlisted(verb: string) {
    forall v :: v in ["GET", "POST", "PUT", "DELETE"] ==> !EqIgnoreCase(verb, v)
  }

  lemma {:induction false} UnlistedIsNotInTable(verb: string, path: string)
    requires IsUnlisted(verb)
    ensures Mapped(ACTION_MAP, verb, path) == None
  {
    forall r, m | r in ACTION_MAP && m in r.methods
      ensures !EqIgnoreCase(verb, m.0)
    {
      VerbsOfTable(r, m);
    }
    OnlyListedVerbs(ACTION_MAP, verb, path);
  }

  lemma {:induction false} UnlistedWriteIsPatch(verb: string)
    requires IsUnlisted(verb)
    ensures IsWrite(verb) <==> verb == "PATCH"
  {
    assert !EqIgnoreCase(verb, "POST") && !EqIgnoreCase(verb, "PUT") && !EqIgnoreCase(verb, "DELETE");
  }

  /** Any other verb has no action, on any path, except `PATCH` in capitals. */
  lemma {:induction false} OtherVerbsAreNotAudited(verb: string, path: string)
    requires IsUnlisted(verb)
    ensures Action(ACTION_MAP, verb, path) == if verb == "PATCH" then Some("api.patch") else None
  {
    UnlistedIsNotInTable(verb, TrimApi(path));
    UnlistedWriteIsPatch(verb);
    assert "api." + Lower("PATCH") == "api.patch";
  }

  lemma {:induction false} VerbsOfTable(r: Row, m: (string, string))
    requires r in ACTION_MAP && m in r.methods
    ensures m.0 in ["GET", "POST", "PUT", "DELETE"]
  {
  }

  lemma {:induction false} ExportsIsInTable()
    ensures ACTION_MAP[2] in ACTION_MAP && ACTION_MAP[2].prefix == EXPORTS
  {
  }
}
