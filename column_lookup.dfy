/**
 * Case-insensitive column resolution with ordered fallbacks, as the chunked
 * flattener does before selecting the X, Y, Z and time columns.
 */
module ColumnLookup {
  import opened Tables

  /** The resolution failure: the requested name and the columns on offer. */
  datatype ColumnError = MissingColumn(target: string, available: seq<string>)

  function LowerChar(c: char): char {
    if 'A' <= c <= 'Z' then (c as int + 32) as char else c
  }

  /** `s.lower()` on ASCII letters. */
  function Lower(s: string): string {
    seq(|s|, i requires 0 <= i < |s| => LowerChar(s[i]))
  }

  /**
   * `{c.lower(): c for c in columns}`: every lower-cased label mapped to an
   * original label; a later column overwrites an earlier one.
   */
  function CaseIndex(columns: seq<string>): (index: map<string, string>)
    ensures forall key | key in index :: index[key] in columns && Lower(index[key]) == key
    ensures forall i | 0 <= i < |columns| :: Lower(columns[i]) in index
  {
    if columns == [] then map[]
    else CaseIndex(columns[..|columns| - 1])[Lower(columns[|columns| - 1]) := columns[|columns| - 1]]
  }

  /** The first candidate whose lower-cased form maps to a non-empty label. */
  function FirstHit(index: map<string, string>, names: seq<string>): (r: Option<string>)
    ensures r.Some? ==> exists k | 0 <= k < |names| :: Hit(index, names[k]) && r.value == index[Lower(names[k])]
  {
    if names == [] then None
    else if Hit(index, names[0]) then Some(index[Lower(names[0])])
    else FirstHit(index, names[1..])
  }

  /** What `find_col(columns, target, fallbacks)` returns or raises. */
  function FindColumn(columns: seq<string>, target: string, fallbacks: seq<string>): (r: Result<string, ColumnError>)
    ensures r.Ok? ==> r.value in columns && r.value != ""
    ensures r.Ok? ==> exists k | 0 <= k <= |fallbacks| :: Lower(r.value) == Lower(([target] + fallbacks)[k])
    ensures r.Err? ==> r.error == MissingColumn(target, columns)
  {
    match FirstHit(CaseIndex(columns), [target] + fallbacks)
    case Some(c) => Ok(c)
    case None => Err(MissingColumn(target, columns))
  }

  /** `name` has a usable match: a non-empty column equal to it up to case. */
  ghost predicate Matches(columns: seq<string>, name: string) {
    exists i | 0 <= i < |columns| :: Lower(columns[i]) == Lower(name) && columns[i] != ""
  }

  /** `find_col`: builds the case index, then tries each candidate in turn. */
  method FindCol(columns: seq<string>, target: string, fallbacks: seq<string>)
    returns (r: Result<string, ColumnError>)
    ensures r == FindColumn(columns, target, fallbacks)
  {
    var cols: map<string, string> := map[];
    for i := 0 to |columns|
      invariant cols == CaseIndex(columns[..i])
    {
      assert columns[..i + 1][..i] == columns[..i];
      cols := cols[Lower(columns[i]) := columns[i]];
    }
    assert columns[..|columns|] == columns;
    var names := [target] + fallbacks;
    for k := 0 to |names|
      invariant FirstHit(cols, names) == FirstHit(cols, names[k..])
    {
      if Hit(cols, names[k]) {
        return Ok(cols[Lower(names[k])]);
      }
      assert names[k..][1..] == names[k + 1..];
    }
    return Err(MissingColumn(target, columns));
  }

  /** Position of the last column whose lower-cased label is `key`, or -1. */
  function LastWith(columns: seq<string>, key: string): (i: int)
    ensures -1 <= i < |columns|
    ensures i >= 0 ==> Lower(columns[i]) == key
    ensures forall j | i < j < |columns| :: Lower(columns[j]) != key
  {
    if columns == [] then -1
    else if Lower(columns[|columns| - 1]) == key then |columns| - 1
    else LastWith(columns[..|columns| - 1], key)
  }

  /**
   * The case index holds exactly the lower-cased labels, and each maps to the
   * LAST column with that lower-cased form.
   */
  lemma {:induction false} CaseIndexLast(columns: seq<string>, key: string)
    ensures key in CaseIndex(columns) <==> LastWith(columns, key) >= 0
    ensures key in CaseIndex(columns) ==> CaseIndex(columns)[key] == columns[LastWith(columns, key)]
  {
    if columns != [] {
      CaseIndexLast(columns[..|columns| - 1], key);
    }
  }

  /** A label with a given lower-cased form exists exactly when the last one does. */
  lemma LastWithExists(columns: seq<string>, key: string)
    ensures LastWith(columns, key) >= 0 <==> exists i | 0 <= i < |columns| :: Lower(columns[i]) == key
  {
  }

  lemma LowerEmpty(s: string)
    ensures |Lower(s)| == |s|
    ensures Lower(s) == "" <==> s == ""
  {
  }

  /** `cols.get(name.lower())` is truthy. */
  predicate Hit(index: map<string, string>, name: string) {
    Lower(name) in index && index[Lower(name)] != ""
  }

  /** A hit in the case index is exactly a usable match among the columns. */
  lemma HitUsable(columns: seq<string>, name: string)
    ensures Hit(CaseIndex(columns), name) <==> Matches(columns, name)
  {
    var key := Lower(name);
    CaseIndexLast(columns, key);
    LastWithExists(columns, key);
    if Matches(columns, name) {
      var i :| 0 <= i < |columns| && Lower(columns[i]) == key && columns[i] != "";
      LowerEmpty(columns[i]);
      LowerEmpty(columns[LastWith(columns, key)]);
    }
  }

  lemma {:induction false} FirstHitSpec(index: map<string, string>, names: seq<string>)
    ensures FirstHit(index, names).None? <==> forall k | 0 <= k < |names| :: !Hit(index, names[k])
    ensures FirstHit(index, names).Some? ==>
      exists k | 0 <= k < |names| ::
        && Hit(index, names[k])
        && (forall k' | 0 <= k' < k :: !Hit(index, names[k']))
        && FirstHit(index, names).value == index[Lower(names[k])]
  {
    if names != [] && !Hit(index, names[0]) {
      var rest := names[1..];
      FirstHitSpec(index, rest);
      assert forall k | 0 < k < |names| :: names[k] == rest[k - 1];
      if FirstHit(index, names).Some? {
        var k :| 0 <= k < |rest| && Hit(index, rest[k])
                 && (forall k' | 0 <= k' < k :: !Hit(index, rest[k']))
                 && FirstHit(index, rest).value == index[Lower(rest[k])];
        assert Hit(index, names[k + 1]);
      }
    }
  }

  /**
   * `find_col` returns the original-cased label of the last column matching
   * the first candidate (target, then fallbacks in order) that matches any
   * non-empty column case-insensitively.
   */
  lemma FindColumnFound(columns: seq<string>, target: string, fallbacks: seq<string>, k: nat)
    requires k <= |fallbacks|
    requires Matches(columns, ([target] + fallbacks)[k])
    requires forall k' | 0 <= k' < k :: !Matches(columns, ([target] + fallbacks)[k'])
    ensures FindColumn(columns, target, fallbacks).Ok?
    ensures var c := FindColumn(columns, target, fallbacks).value;
      && c != ""
      && Lower(c) == Lower(([target] + fallbacks)[k])
      && c == columns[LastWith(columns, Lower(c))]
  {
    var names := [target] + fallbacks;
    var index := CaseIndex(columns);
    forall k' | 0 <= k' <= k ensures Hit(index, names[k']) <==> Matches(columns, names[k']) {
      HitUsable(columns, names[k']);
    }
    FirstHitSpec(index, names);
    var k0 :| 0 <= k0 < |names| && Hit(index, names[k0])
              && (forall k' | 0 <= k' < k0 :: !Hit(index, names[k']))
              && FirstHit(index, names).value == index[Lower(names[k0])];
    assert k0 == k;
    CaseIndexLast(columns, Lower(names[k]));
  }

  /**
   * `find_col` raises, naming the target and listing the columns, exactly
   * when no candidate matches a non-empty column case-insensitively.
   */
  lemma FindColumnMissing(columns: seq<string>, target: string, fallbacks: seq<string>)
    ensures FindColumn(columns, target, fallbacks).Err? <==>
      forall k | 0 <= k <= |fallbacks| :: !Matches(columns, ([target] + fallbacks)[k])
    ensures FindColumn(columns, target, fallbacks).Err? ==>
      FindColumn(columns, target, fallbacks).error == MissingColumn(target, columns)
  {
    var names := [target] + fallbacks;
    forall k | 0 <= k < |names| ensures Hit(CaseIndex(columns), names[k]) <==> Matches(columns, names[k]) {
      HitUsable(columns, names[k]);
    }
    FirstHitSpec(CaseIndex(columns), names);
  }

  /** Whatever `find_col` returns is one of the table's labels. */
  lemma FindColumnInColumns(columns: seq<string>, target: string, fallbacks: seq<string>)
    ensures FindColumn(columns, target, fallbacks).Ok? ==> FindColumn(columns, target, fallbacks).value in columns
  {
    var names := [target] + fallbacks;
    var index := CaseIndex(columns);
    FirstHitSpec(index, names);
    if FindColumn(columns, target, fallbacks).Ok? {
      var k :| 0 <= k < |names| && Hit(index, names[k]) && FirstHit(index, names).value == index[Lower(names[k])];
      CaseIndexLast(columns, Lower(names[k]));
    }
  }
}
