/** What a recorded discrepancy says about the two lists of observations: every finding is a fact about them, and every
    such fact is found. */
module FindingEvidence {
  import opened Documents
  import opened Ordering
  import opened TextOrder
  import opened Rounding
  import opened Contracts
  import opened Observations
  import opened Findings
  import opened Reconciler
  import opened Comparison
  import opened Verdicts
  import opened Evidence
  import opened ContractEvidence

  // ----- the observations of a key -----

  /** The observation stands under this valid key. */
  predicate Under(row: Value, key: Value) {
    row.Object? && "key" in row.fields && row.fields["key"] == key && KeyIsValid(key)
  }

  /** Where the key stands among the first n observations. */
  function Places(rows: seq<Value>, n: nat, key: Value): (r: seq<nat>)
    requires n <= |rows|
    ensures forall m | 0 <= m < |r| :: r[m] < n && Under(rows[r[m]], key)
    ensures forall i | 0 <= i < n && Under(rows[i], key) :: i in r
  {
    if n == 0 then [] else Places(rows, n - 1, key) + if Under(rows[n - 1], key) then [n - 1] else []
  }

  function PlacesOf(rows: seq<Value>, key: Value): seq<nat> { Places(rows, |rows|, key) }

  function RowsOf(rows: seq<Value>, key: Value): seq<Value> {
    var places := PlacesOf(rows, key);
    seq(|places|, m requires 0 <= m < |places| => rows[places[m]])
  }

  predicate Lone(rows: seq<Value>, key: Value, i: int) { 0 <= i < |rows| && PlacesOf(rows, key) == [i] }

  predicate FlagIs(row: Value, flag: bool) {
    row.Object? && "eligibility" in row.fields && row.fields["eligibility"] == Bool(flag)
  }

  predicate NumberIs(row: Value, name: string, x: real) {
    row.Object? && name in row.fields
    && (row.fields[name] == Float(x) || (row.fields[name].Whole? && row.fields[name].whole as real == x))
  }

  // ----- what a finding says -----

  lemma FieldsAre()
    ensures OBSERVATION_FIELDS
      == {"key", "eligibility", "signal", "rank", "target", "order", "position", "cash", "fees", "pnl"}
  {
  }

  /** A fact about observation n of one list. */
  predicate RowFact(f: Finding, source: string, n: nat, row: Value) {
    match f
    case InvalidFields(s, m, missing, extra, raw) =>
      && s == source && m == n && row == Object(raw) && raw.Keys != OBSERVATION_FIELDS
      && missing == Listed(OBSERVATION_FIELDS - raw.Keys) && extra == Listed(raw.Keys - OBSERVATION_FIELDS)
    case InvalidKey(s, m, key) =>
      && s == source && m == n && row.Object? && !KeyIsValid(key)
      && key == if "key" in row.fields then row.fields["key"] else Null
    case InvalidType(s, m, key, field, expected, value) =>
      && s == source && m == n && Under(row, key) && field in row.fields && value == row.fields[field]
      && ((field == "eligibility" && expected == "boolean" && !value.Bool?)
          || (field in NUMERIC && expected == "finite number" && !IsMarker(value)
              && !value.Whole? && !value.Float? && !value.NonFinite?))
    case NonFiniteValue(s, m, key, field, value) =>
      && s == source && m == n && Under(row, key) && field in NUMERIC && field in row.fields
      && var given := row.fields[field];
         (IsMarker(given) && value == given) || (given.NonFinite? && value == Marker(given.tag))
    case _ => false
  }

  predicate AnyRowFact(f: Finding, source: string, rows: seq<Value>) {
    exists n | 0 <= n < |rows| :: RowFact(f, source, n, rows[n])
  }

  predicate RepeatFact(f: Finding, source: string, rows: seq<Value>) {
    && f.Duplicate? && f.source == source && f.occurrences == PlacesOf(rows, f.key) && |f.occurrences| > 1
    && f.rows == RowsOf(rows, f.key)
  }

  predicate MissingFact(f: Finding, source: string, keys: seq<Value>, rows: seq<Value>) {
    f.MissingExpected? && f.source == source && f.key in keys && PlacesOf(rows, f.key) == []
  }

  predicate SurplusFact(f: Finding, source: string, keys: seq<Value>, rows: seq<Value>) {
    f.Unexpected? && f.source == source && f.key !in keys && f.rows == RowsOf(rows, f.key) && f.rows != []
  }

  /** A fact about one list: a malformed observation, a repeated key, a key missing or one too many. */
  predicate OwnFact(f: Finding, source: string, keys: seq<Value>, rows: seq<Value>) {
    || AnyRowFact(f, source, rows) || RepeatFact(f, source, rows)
    || MissingFact(f, source, keys, rows) || SurplusFact(f, source, keys, rows)
  }

  /** A key that `presentIn` has and `missingFrom` lacks. */
  predicate AbsenceFact(f: Finding, presentIn: string, here: seq<Value>, missingFrom: string, there: seq<Value>) {
    && f.MissingRow? && f.presentIn == presentIn && f.missingFrom == missingFrom
    && f.rows == RowsOf(here, f.key) && f.rows != [] && PlacesOf(there, f.key) == []
  }

  /** Two lone observations of a key that disagree, in the flag or in a number. */
  predicate PairFact(f: Finding, c: Contract, a: Value, b: Value) {
    match f
    case ExactMismatch(key, l, leftValue, r, rightValue) =>
      && l == c.primary.implementationId && r == c.replication.implementationId
      && FlagIs(a, leftValue) && FlagIs(b, rightValue) && leftValue != rightValue
    case NumericMismatch(key, field, l, x, r, y, allowed, tolerance) =>
      && l == c.primary.implementationId && r == c.replication.implementationId
      && field in NUMERIC && field in c.tolerances && tolerance == c.tolerances[field]
      && NumberIs(a, field, x) && NumberIs(b, field, y) && Exceeds(tolerance, x, y, allowed)
    case _ => false
  }

  /** The numbers are further apart than allowed: an absolute error and a share of the larger of them. */
  predicate Exceeds(t: Tolerance, x: real, y: real, allowed: real) {
    && allowed == t.absolute + t.relative * (if Abs(x) >= Abs(y) then Abs(x) else Abs(y))
    && !(-allowed <= x - y <= allowed)
  }

  predicate DisagreementFact(f: Finding, c: Contract, left: seq<Value>, right: seq<Value>) {
    && (f.ExactMismatch? || f.NumericMismatch?)
    && exists i, j | 0 <= i < |left| && 0 <= j < |right| ::
         Lone(left, f.key, i) && Lone(right, f.key, j) && PairFact(f, c, left[i], right[j])
  }

  predicate Fact(f: Finding, c: Contract, left: seq<Value>, right: seq<Value>) {
    var primary, replication := c.primary.implementationId, c.replication.implementationId;
    || OwnFact(f, primary, c.keys, left) || OwnFact(f, replication, c.keys, right)
    || AbsenceFact(f, primary, left, replication, right) || AbsenceFact(f, replication, right, primary, left)
    || DisagreementFact(f, c, left, right)
  }

  // ----- lists of findings -----

  lemma {:induction false} InGather(n: nat, g: int -> seq<Finding>, f: Finding)
    ensures f in Gather(n, g) <==> exists i | 0 <= i < n :: f in g(i)
  {
    if n > 0 { InGather(n - 1, g, f); }
  }

  /** A finding that only its own field's test can make is made when that field is tested. */
  lemma {:induction false} InNamed(names: seq<string>, g: int -> seq<Finding>, f: Finding, field: string, holds: bool)
    requires forall i | 0 <= i < |names| :: f in g(i) <==> holds && field == names[i]
    ensures f in Gather(|names|, g) <==> holds && field in names
  {
    InGather(|names|, g, f);
    if holds && field in names { var i :| 0 <= i < |names| && names[i] == field; }
  }

  lemma UnderTells(row: Value, key: Value)
    ensures Under(row, key) <==> Usable(row) && KeyOf(row) == key
  {
  }

  /** The observation at a place, parsed. */
  predicate ParsedAt(rows: seq<Value>, p: Parsed, place: nat) {
    place < |rows| && rows[place].Object? && p == ParsedRow(rows[place], place)
  }

  /** The group of a key is its observations in the order they came. */
  lemma {:induction false} FiledTells(rows: seq<Value>, n: nat, key: Value)
    requires n <= |rows|
    ensures var group := Filed(rows, n, key);
      && |group| == |Places(rows, n, key)|
      && forall m | 0 <= m < |group| :: ParsedAt(rows, group[m], Places(rows, n, key)[m])
  {
    if n > 0 {
      FiledTells(rows, n - 1, key);
      UnderTells(rows[n - 1], key);
      FiledNext(rows, n - 1, key);
      var places, group := Places(rows, n - 1, key), Filed(rows, n - 1, key);
      if Under(rows[n - 1], key) {
        MatchNext(rows, group, places, ParsedRow(rows[n - 1], n - 1), n - 1);
      }
    }
  }

  lemma MatchNext(rows: seq<Value>, group: seq<Parsed>, places: seq<nat>, p: Parsed, place: nat)
    requires |group| == |places| && forall m | 0 <= m < |group| :: ParsedAt(rows, group[m], places[m])
    requires ParsedAt(rows, p, place)
    ensures forall m | 0 <= m < |group + [p]| :: ParsedAt(rows, (group + [p])[m], (places + [place])[m])
  {
  }

  lemma FiledNext(rows: seq<Value>, n: nat, key: Value)
    requires n < |rows|
    ensures Filed(rows, n + 1, key)
      == Filed(rows, n, key) + if Usable(rows[n]) && KeyOf(rows[n]) == key then [ParsedRow(rows[n], n)] else []
  {
  }

  lemma {:induction false} GroupTells(identity: Identity, rows: seq<Value>, key: Value)
    ensures var o := Parse(identity, rows);
      && (key in o.groups <==> PlacesOf(rows, key) != []) && (key in o.order <==> PlacesOf(rows, key) != [])
      && (key in o.groups ==>
            && |o.groups[key]| == |PlacesOf(rows, key)| && Occurrences(o.groups[key]) == PlacesOf(rows, key)
            && Raws(o.groups[key]) == RowsOf(rows, key) && o.groups[key][0].key == key)
  {
    GroupsAreWhole(rows, |rows|);
    GroupReads(rows, key);
  }

  lemma {:induction false} GroupReads(rows: seq<Value>, key: Value)
    ensures var group := Filed(rows, |rows|, key);
      && |group| == |PlacesOf(rows, key)| && Occurrences(group) == PlacesOf(rows, key)
      && Raws(group) == RowsOf(rows, key) && (group != [] ==> group[0].key == key)
  {
    var group, places := Filed(rows, |rows|, key), PlacesOf(rows, key);
    FiledTells(rows, |rows|, key);
    ReadAt(rows, group, places);
    if group != [] {
      assert ParsedAt(rows, group[0], places[0]);
      UnderTells(rows[places[0]], key);
    }
  }

  lemma {:induction false} ReadAt(rows: seq<Value>, group: seq<Parsed>, places: seq<nat>)
    requires |group| == |places| && forall m | 0 <= m < |group| :: ParsedAt(rows, group[m], places[m])
    ensures Occurrences(group) == places
    ensures forall m | 0 <= m < |places| :: places[m] < |rows| && Raws(group)[m] == rows[places[m]]
  {
    forall m | 0 <= m < |group|
      ensures places[m] < |rows| && group[m].occurrence == places[m] && group[m].raw == rows[places[m]]
    {
      assert ParsedAt(rows, group[m], places[m]);
    }
  }

  // ----- one observation -----

  lemma NumberFindingTells(source: string, n: nat, row: Value, name: string, f: Finding)
    requires row.Object? && KeyIsValid(KeyOf(row)) && name in NUMERIC
    ensures f in NumberFinding(source, n, row.fields, name)
      <==> RowFact(f, source, n, row) && (f.InvalidType? || f.NonFiniteValue?) && f.field == name
  {
  }

  lemma {:induction false} NumbersTell(source: string, n: nat, row: Value, f: Finding)
    requires row.Object? && KeyIsValid(KeyOf(row))
    ensures f in Gather(|NUMERIC_FIELDS|, NumberFindings(source, n, row.fields, NUMERIC_FIELDS))
      <==> RowFact(f, source, n, row) && (f.InvalidType? || f.NonFiniteValue?) && f.field in NUMERIC
  {
    var g := NumberFindings(source, n, row.fields, NUMERIC_FIELDS);
    var holds := RowFact(f, source, n, row) && (f.InvalidType? || f.NonFiniteValue?);
    var field := if f.InvalidType? || f.NonFiniteValue? then f.field else "";
    NumericFieldsAreAll();
    forall i | 0 <= i < |NUMERIC_FIELDS| ensures f in g(i) <==> holds && field == NUMERIC_FIELDS[i] {
      assert NUMERIC_FIELDS[i] in NUMERIC_FIELDS;
      NumberFindingTells(source, n, row, NUMERIC_FIELDS[i], f);
    }
    InNamed(NUMERIC_FIELDS, g, f, field, holds);
  }

  /** What is found in one observation is what is wrong with it. */
  lemma {:induction false} RowTells(source: string, n: nat, row: Value, f: Finding)
    requires row.Object?
    ensures f in RowFindings(source, n, row) <==> RowFact(f, source, n, row)
  {
    if KeyIsValid(KeyOf(row)) { NumbersTell(source, n, row, f); }
  }

  // ----- one list -----

  lemma {:induction false} RepeatTells(identity: Identity, rows: seq<Value>, f: Finding)
    ensures var o := Parse(identity, rows);
      f in Gather(|o.order|, DuplicateFindings(Name(o), o.groups, o.order))
      <==> RepeatFact(f, identity.implementationId, rows)
  {
    var o := Parse(identity, rows);
    var g := DuplicateFindings(Name(o), o.groups, o.order);
    InGather(|o.order|, g, f);
    if i :| 0 <= i < |o.order| && f in g(i) { GroupTells(identity, rows, o.order[i]); }
    if RepeatFact(f, identity.implementationId, rows) {
      GroupTells(identity, rows, f.key);
      var i :| 0 <= i < |o.order| && o.order[i] == f.key;
      assert f in g(i);
    }
  }

  lemma {:induction false} ParseTells(identity: Identity, rows: seq<Value>, f: Finding)
    requires Rows(rows)
    ensures f in Parse(identity, rows).findings
      <==> AnyRowFact(f, identity.implementationId, rows) || RepeatFact(f, identity.implementationId, rows)
  {
    var g := RowsFindings(identity.implementationId, rows);
    InGather(|rows|, g, f);
    forall n | 0 <= n < |rows| ensures f in g(n) <==> RowFact(f, identity.implementationId, n, rows[n]) {
      RowTells(identity.implementationId, n, rows[n], f);
    }
    RepeatTells(identity, rows, f);
  }

  lemma {:induction false} MissingTells(identity: Identity, rows: seq<Value>, keys: seq<Value>, f: Finding)
    ensures f in Gather(|keys|, MissingFindings(Parse(identity, rows), keys))
      <==> MissingFact(f, identity.implementationId, keys, rows)
  {
    var o := Parse(identity, rows);
    var g := MissingFindings(o, keys);
    InGather(|keys|, g, f);
    if i :| 0 <= i < |keys| && f in g(i) { GroupTells(identity, rows, keys[i]); }
    if MissingFact(f, identity.implementationId, keys, rows) {
      GroupTells(identity, rows, f.key);
      var i :| 0 <= i < |keys| && keys[i] == f.key;
      assert f in g(i);
    }
  }

  /** The tokens are the keys of the groups. */
  lemma TokenTells(identity: Identity, rows: seq<Value>, le: (Value, Value) -> bool, key: Value)
    requires TotalOrder(le)
    ensures key in Sort(Parse(identity, rows).order, le) <==> PlacesOf(rows, key) != []
  {
    GroupTells(identity, rows, key);
    SortMembers(Parse(identity, rows).order, le, key);
  }

  lemma {:induction false} SurplusTells(identity: Identity, rows: seq<Value>, keys: seq<Value>,
                                        le: (Value, Value) -> bool, f: Finding)
    requires TotalOrder(le)
    ensures var o := Parse(identity, rows);
      var tokens := Sort(o.order, le);
      f in Gather(|tokens|, UnexpectedFindings(o, tokens, keys))
      <==> SurplusFact(f, identity.implementationId, keys, rows)
  {
    var o := Parse(identity, rows);
    var tokens := Sort(o.order, le);
    var g := UnexpectedFindings(o, tokens, keys);
    InGather(|tokens|, g, f);
    if i :| 0 <= i < |tokens| && f in g(i) { GroupTells(identity, rows, tokens[i]); }
    if SurplusFact(f, identity.implementationId, keys, rows) {
      GroupTells(identity, rows, f.key);
      TokenTells(identity, rows, le, f.key);
      var i :| 0 <= i < |tokens| && tokens[i] == f.key;
      assert f in g(i);
    }
  }

  // ----- both lists -----

  lemma {:induction false} AbsenceTells(here: Identity, ours: seq<Value>, there: Identity, theirs: seq<Value>,
                                        le: (Value, Value) -> bool, f: Finding)
    requires TotalOrder(le)
    ensures var tokens := Sort(Parse(here, ours).order, le);
      f in Gather(|tokens|, AbsentFindings(Parse(here, ours), Parse(there, theirs), tokens))
      <==> AbsenceFact(f, here.implementationId, ours, there.implementationId, theirs)
  {
    var p, r := Parse(here, ours), Parse(there, theirs);
    var tokens := Sort(p.order, le);
    var g := AbsentFindings(p, r, tokens);
    InGather(|tokens|, g, f);
    if i :| 0 <= i < |tokens| && f in g(i) {
      GroupTells(here, ours, tokens[i]);
      GroupTells(there, theirs, tokens[i]);
    }
    if AbsenceFact(f, here.implementationId, ours, there.implementationId, theirs) {
      GroupTells(here, ours, f.key);
      GroupTells(there, theirs, f.key);
      TokenTells(here, ours, le, f.key);
      var i :| 0 <= i < |tokens| && tokens[i] == f.key;
      assert f in g(i);
    }
  }

  lemma {:induction false} ReadNumber(row: Value, n: nat, name: string, x: real)
    requires row.Object? && name in NUMERIC
    ensures NumberIs(row, name, x) <==> name in ParsedRow(row, n).numbers && ParsedRow(row, n).numbers[name] == x
  {
    NumericFieldsAreAll();
    NumbersFound(row.fields, NUMERIC_FIELDS, |NUMERIC_FIELDS|, name);
    assert NUMERIC_FIELDS[..|NUMERIC_FIELDS|] == NUMERIC_FIELDS;
  }

  /** The parse holds exactly the number of that name in the row. */
  ghost predicate Carries(p: Parsed, row: Value, name: string) {
    forall x :: NumberIs(row, name, x) <==> name in p.numbers && p.numbers[name] == x
  }

  lemma {:induction false} ParsedCarries(row: Value, n: nat, name: string)
    requires row.Object? && name in NUMERIC
    ensures Carries(ParsedRow(row, n), row, name)
  {
    var numbers := ParsedRow(row, n).numbers;
    forall x ensures NumberIs(row, name, x) <==> name in numbers && numbers[name] == x {
      ReadNumber(row, n, name, x);
    }
  }

  lemma ExceedsTells(t: Tolerance, x: real, y: real, allowed: real)
    ensures Exceeds(t, x, y, allowed)
      <==> allowed == AllowedError(t.absolute, t.relative, x, y) && Abs(x - y) > allowed
  {
  }

  lemma {:induction false} NumberPairTells(c: Contract, p: Parsed, a: Value, q: Parsed, b: Value, name: string,
                                           f: Finding)
    requires name in NUMERIC && Tolerant(c) && Carries(p, a, name) && Carries(q, b, name)
    ensures f in NumberMismatch(c, c.primary.implementationId, p, c.replication.implementationId, q, name)
      <==> f.NumericMismatch? && f.field == name && f.key == p.key && PairFact(f, c, a, b)
  {
    if name in p.numbers && name in q.numbers {
      MismatchTells(c, p, a, q, b, name, c.tolerances[name], p.numbers[name], q.numbers[name], f);
    }
  }

  lemma {:induction false} MismatchTells(c: Contract, p: Parsed, a: Value, q: Parsed, b: Value, name: string,
                                         t: Tolerance, x: real, y: real, f: Finding)
    requires name in NUMERIC && name in c.tolerances && t == c.tolerances[name]
    requires name in p.numbers && name in q.numbers && x == p.numbers[name] && y == q.numbers[name]
    requires (forall z :: NumberIs(a, name, z) <==> z == x) && forall z :: NumberIs(b, name, z) <==> z == y
    ensures f in NumberMismatch(c, c.primary.implementationId, p, c.replication.implementationId, q, name)
      <==> f.NumericMismatch? && f.field == name && f.key == p.key && PairFact(f, c, a, b)
  {
    var l, r, allowed := c.primary.implementationId, c.replication.implementationId,
        AllowedError(t.absolute, t.relative, x, y);
    ExceedsTells(t, x, y, allowed);
    if f.NumericMismatch? { ExceedsTells(t, f.leftNumber, f.rightNumber, f.allowed); }
    assert f in NumberMismatch(c, l, p, r, q, name)
      <==> Abs(x - y) > allowed && f == NumericMismatch(p.key, name, l, x, r, y, allowed, t);
  }

  lemma {:induction false} NumberPairsTell(c: Contract, p: Parsed, a: Value, q: Parsed, b: Value, f: Finding)
    requires Tolerant(c) && forall name | name in NUMERIC :: Carries(p, a, name) && Carries(q, b, name)
    ensures f in Gather(|NUMERIC_FIELDS|, NumberMismatches(c, c.primary.implementationId, p,
                                                           c.replication.implementationId, q, NUMERIC_FIELDS))
      <==> f.NumericMismatch? && f.key == p.key && PairFact(f, c, a, b)
  {
    var g := NumberMismatches(c, c.primary.implementationId, p, c.replication.implementationId, q, NUMERIC_FIELDS);
    var holds := f.NumericMismatch? && f.key == p.key && PairFact(f, c, a, b);
    var field := if f.NumericMismatch? then f.field else "";
    forall i | 0 <= i < |NUMERIC_FIELDS| ensures f in g(i) <==> holds && field == NUMERIC_FIELDS[i] {
      MismatchesAt(c, p, a, q, b, i, f);
    }
    InNamed(NUMERIC_FIELDS, g, f, field, holds);
    if holds { PairNamesNumber(c, a, b, f); }
  }

  lemma {:induction false} MismatchesAt(c: Contract, p: Parsed, a: Value, q: Parsed, b: Value, i: nat, f: Finding)
    requires Tolerant(c) && forall name | name in NUMERIC :: Carries(p, a, name) && Carries(q, b, name)
    requires i < |NUMERIC_FIELDS|
    ensures f in NumberMismatches(c, c.primary.implementationId, p, c.replication.implementationId, q,
                                  NUMERIC_FIELDS)(i)
      <==> f.NumericMismatch? && f.field == NUMERIC_FIELDS[i] && f.key == p.key && PairFact(f, c, a, b)
  {
    NumericFieldsAreAll();
    assert NUMERIC_FIELDS[i] in NUMERIC_FIELDS;
    NumberPairTells(c, p, a, q, b, NUMERIC_FIELDS[i], f);
  }

  lemma PairNamesNumber(c: Contract, a: Value, b: Value, f: Finding)
    requires f.NumericMismatch? && PairFact(f, c, a, b)
    ensures f.field in NUMERIC_FIELDS
  {
    NumericFieldsAreAll();
  }

  lemma {:induction false} FlagsTell(c: Contract, a: Value, m: nat, b: Value, n: nat, f: Finding)
    requires a.Object? && b.Object?
    ensures f in EligibilityMismatch(c.primary.implementationId, ParsedRow(a, m), c.replication.implementationId,
                                     ParsedRow(b, n))
      <==> f.ExactMismatch? && f.key == KeyOf(a) && PairFact(f, c, a, b)
  {
  }

  /** What two lone observations of a key leave is what they disagree on. */
  lemma {:induction false} PairTells(c: Contract, a: Value, m: nat, b: Value, n: nat, f: Finding)
    requires a.Object? && b.Object? && Tolerant(c)
    ensures f in PairMismatches(c, c.primary.implementationId, ParsedRow(a, m), c.replication.implementationId,
                                ParsedRow(b, n))
      <==> (f.ExactMismatch? || f.NumericMismatch?) && f.key == KeyOf(a) && PairFact(f, c, a, b)
  {
    forall name | name in NUMERIC ensures Carries(ParsedRow(a, m), a, name) && Carries(ParsedRow(b, n), b, name) {
      ParsedCarries(a, m, name);
      ParsedCarries(b, n, name);
    }
    NumberPairsTell(c, ParsedRow(a, m), a, ParsedRow(b, n), b, f);
    FlagsTell(c, a, m, b, n, f);
  }

  lemma {:induction false} LoneGroup(identity: Identity, rows: seq<Value>, key: Value, i: nat)
    requires Lone(rows, key, i)
    ensures rows[i].Object?
    ensures key in Parse(identity, rows).groups && Parse(identity, rows).groups[key] == [ParsedRow(rows[i], i)]
    ensures KeyOf(rows[i]) == key
  {
    GroupTells(identity, rows, key);
    GroupsAreWhole(rows, |rows|);
    FiledTells(rows, |rows|, key);
    UnderTells(rows[i], key);
  }

  /** What is found at a token both lists have once. */
  lemma {:induction false} TokenPairTells(c: Contract, left: seq<Value>, right: seq<Value>, tokens: seq<Value>, t: nat,
                                          i: nat, j: nat, f: Finding)
    requires Tolerant(c) && t < |tokens| && i < |left| && j < |right|
    requires Lone(left, tokens[t], i) && Lone(right, tokens[t], j)
    ensures f in SharedFindings(c, Parse(c.primary, left), Parse(c.replication, right), tokens)(t)
      <==> (f.ExactMismatch? || f.NumericMismatch?) && f.key == tokens[t] && PairFact(f, c, left[i], right[j])
  {
    LoneGroup(c.primary, left, tokens[t], i);
    LoneGroup(c.replication, right, tokens[t], j);
    PairTells(c, left[i], i, right[j], j, f);
  }

  lemma {:induction false} LoneAtToken(c: Contract, left: seq<Value>, right: seq<Value>, tokens: seq<Value>, t: nat,
                                       f: Finding) returns (i: nat, j: nat)
    requires t < |tokens| && f in SharedFindings(c, Parse(c.primary, left), Parse(c.replication, right), tokens)(t)
    ensures i < |left| && j < |right| && Lone(left, tokens[t], i) && Lone(right, tokens[t], j)
  {
    GroupTells(c.primary, left, tokens[t]);
    GroupTells(c.replication, right, tokens[t]);
    i, j := PlacesOf(left, tokens[t])[0], PlacesOf(right, tokens[t])[0];
  }

  lemma {:induction false} SharedTells(c: Contract, left: seq<Value>, right: seq<Value>, le: (Value, Value) -> bool,
                                       f: Finding)
    requires TotalOrder(le) && Tolerant(c)
    ensures var p, r := Parse(c.primary, left), Parse(c.replication, right);
      var tokens := Sort(p.order, le);
      f in Gather(|tokens|, SharedFindings(c, p, r, tokens)) <==> DisagreementFact(f, c, left, right)
  {
    var p, r := Parse(c.primary, left), Parse(c.replication, right);
    var tokens := Sort(p.order, le);
    var g := SharedFindings(c, p, r, tokens);
    InGather(|tokens|, g, f);
    if t :| 0 <= t < |tokens| && f in g(t) {
      var i, j := LoneAtToken(c, left, right, tokens, t, f);
      TokenPairTells(c, left, right, tokens, t, i, j, f);
    }
    if DisagreementFact(f, c, left, right) {
      var i, j :| 0 <= i < |left| && 0 <= j < |right|
                  && Lone(left, f.key, i) && Lone(right, f.key, j) && PairFact(f, c, left[i], right[j]);
      TokenTells(c.primary, left, le, f.key);
      var t :| 0 <= t < |tokens| && tokens[t] == f.key;
      TokenPairTells(c, left, right, tokens, t, i, j, f);
    }
  }

  lemma InCompare(c: Contract, p: ParsedOutput, r: ParsedOutput, le: (Value, Value) -> bool, f: Finding)
    ensures var here, there := Sort(p.order, le), Sort(r.order, le);
      f in Compare(c, p, r, le) <==>
        || f in p.findings || f in r.findings || f in Coverage(p, c.keys, le) || f in Coverage(r, c.keys, le)
        || f in Gather(|here|, AbsentFindings(p, r, here)) || f in Gather(|there|, AbsentFindings(r, p, there))
        || f in Gather(|here|, SharedFindings(c, p, r, here))
  {
  }

  /** The reconciler finds exactly the facts: whatever is found is so, and whatever is so is found. */
  lemma {:induction false} FindingsTell(c: Contract, left: seq<Value>, right: seq<Value>, le: (Value, Value) -> bool,
                                        f: Finding)
    requires TotalOrder(le) && ContractHolds(c, le) && Rows(left) && Rows(right)
    ensures f in Compare(c, Parse(c.primary, left), Parse(c.replication, right), le) <==> Fact(f, c, left, right)
  {
    InCompare(c, Parse(c.primary, left), Parse(c.replication, right), le, f);
    ParseTells(c.primary, left, f);
    ParseTells(c.replication, right, f);
    MissingTells(c.primary, left, c.keys, f);
    MissingTells(c.replication, right, c.keys, f);
    SurplusTells(c.primary, left, c.keys, le, f);
    SurplusTells(c.replication, right, c.keys, le, f);
    AbsenceTells(c.primary, left, c.replication, right, le, f);
    AbsenceTells(c.replication, right, c.primary, left, le, f);
    SharedTells(c, left, right, le, f);
  }

  // ----- what is written down -----

  predicate FieldIs(d: Value, name: string, v: Value) { d.Object? && name in d.fields && d.fields[name] == v }

  /** The named entry quotes one implementation and its value. */
  predicate EntryIs(d: Value, name: string, source: string, v: Value) {
    && d.Object? && name in d.fields
    && FieldIs(d.fields[name], "implementation_id", Text(source)) && FieldIs(d.fields[name], "value", v)
  }

  predicate TextsAre(v: Value, names: seq<string>) {
    v.List? && |v.items| == |names| && forall i | 0 <= i < |names| :: v.items[i] == Text(names[i])
  }

  predicate NumbersAre(v: Value, numbers: seq<nat>) {
    v.List? && |v.items| == |numbers| && forall i | 0 <= i < |numbers| :: v.items[i] == Whole(numbers[i])
  }

  predicate Observed(d: Value, kind: string, source: string, n: nat) {
    && FieldIs(d, "kind", Text(kind)) && FieldIs(d, "implementation_id", Text(source))
    && FieldIs(d, "occurrence", Whole(n))
  }

  predicate Keyed(d: Value, kind: string, key: Value) { FieldIs(d, "kind", Text(kind)) && FieldIs(d, "key", key) }

  /** The document tells the finding. */
  predicate Says(d: Value, f: Finding) {
    match f
    case InvalidFields(source, n, missing, extra, raw) =>
      && Observed(d, "invalid_observation_fields", source, n) && FieldIs(d, "observation", Object(raw))
      && "missing_fields" in d.fields && TextsAre(d.fields["missing_fields"], missing)
      && "extra_fields" in d.fields && TextsAre(d.fields["extra_fields"], extra)
    case InvalidKey(source, n, key) =>
      Observed(d, "invalid_observation_key", source, n) && FieldIs(d, "key", key)
    case InvalidType(source, n, key, field, expected, value) =>
      && Observed(d, "invalid_value_type", source, n) && FieldIs(d, "key", key) && FieldIs(d, "field", Text(field))
      && FieldIs(d, "expected", Text(expected)) && FieldIs(d, "value", value)
    case NonFiniteValue(source, n, key, field, value) =>
      && Observed(d, "nonfinite_value", source, n) && FieldIs(d, "key", key) && FieldIs(d, "field", Text(field))
      && FieldIs(d, "value", value)
    case Duplicate(source, key, occurrences, rows) =>
      && Keyed(d, "duplicate_observation", key) && FieldIs(d, "implementation_id", Text(source))
      && FieldIs(d, "count", Whole(|rows|)) && FieldIs(d, "observations", List(rows))
      && "occurrences" in d.fields && NumbersAre(d.fields["occurrences"], occurrences)
    case MissingExpected(source, key) =>
      Keyed(d, "missing_expected_observation", key) && FieldIs(d, "implementation_id", Text(source))
    case Unexpected(source, key, rows) =>
      && Keyed(d, "unexpected_observation", key) && FieldIs(d, "implementation_id", Text(source))
      && FieldIs(d, "observations", List(rows))
    case MissingRow(key, missingFrom, presentIn, rows) =>
      && Keyed(d, "missing_observation", key) && FieldIs(d, "missing_from", Text(missingFrom))
      && FieldIs(d, "present_in", Text(presentIn)) && FieldIs(d, "present_observations", List(rows))
    case ExactMismatch(key, left, leftValue, right, rightValue) =>
      && Keyed(d, "exact_mismatch", key) && FieldIs(d, "field", Text("eligibility"))
      && EntryIs(d, "primary", left, Bool(leftValue)) && EntryIs(d, "replication", right, Bool(rightValue))
    case NumericMismatch(key, field, left, x, right, y, allowed, t) =>
      && Keyed(d, "numeric_mismatch", key) && FieldIs(d, "field", Text(field))
      && EntryIs(d, "primary", left, Float(x)) && EntryIs(d, "replication", right, Float(y))
      && FieldIs(d, "absolute_error", Float(if x >= y then x - y else y - x))
      && FieldIs(d, "allowed_error", Float(allowed)) && "tolerance" in d.fields
      && FieldIs(d.fields["tolerance"], "absolute", Float(t.absolute))
      && FieldIs(d.fields["tolerance"], "relative", Float(t.relative))
  }

  lemma {:induction false} DocumentSays(f: Finding)
    ensures Says(Document(f), f)
  {
    match f
    case ExactMismatch(_, _, _, _, _) => MismatchSays(f);
    case NumericMismatch(_, _, _, _, _, _, _, _) => MismatchSays(f);
    case InvalidFields(_, _, _, _, _) => MalformedSays(f);
    case InvalidKey(_, _, _) => MalformedSays(f);
    case InvalidType(_, _, _, _, _, _) => MalformedSays(f);
    case NonFiniteValue(_, _, _, _, _) => MalformedSays(f);
    case _ => CoverageSays(f);
  }

  lemma {:induction false} MalformedSays(f: Finding)
    requires f.InvalidFields? || f.InvalidKey? || f.InvalidType? || f.NonFiniteValue?
    ensures Says(Document(f), f)
  {
  }

  lemma {:induction false} CoverageSays(f: Finding)
    requires f.Duplicate? || f.MissingExpected? || f.Unexpected? || f.MissingRow?
    ensures Says(Document(f), f)
  {
  }

  lemma {:induction false} MismatchSays(f: Finding)
    requires f.ExactMismatch? || f.NumericMismatch?
    ensures Says(Document(f), f)
  {
  }

  /** The documents tell the facts about the two lists: each tells one, and each fact is told. */
  ghost predicate TellsFacts(documents: seq<Value>, c: Contract, left: seq<Value>, right: seq<Value>) {
    && (forall d | d in documents :: exists f :: Fact(f, c, left, right) && Says(d, f))
    && (forall f | Fact(f, c, left, right) :: ToldIn(documents, f))
  }

  /** Some document tells the finding. */
  predicate ToldIn(documents: seq<Value>, f: Finding) {
    documents != [] && (Says(documents[|documents| - 1], f) || ToldIn(documents[..|documents| - 1], f))
  }

  lemma {:induction false} ToldBy(documents: seq<Value>, f: Finding, i: nat)
    requires i < |documents| && Says(documents[i], f)
    ensures ToldIn(documents, f)
  {
    if i < |documents| - 1 { ToldBy(documents[..|documents| - 1], f, i); }
  }

  lemma {:induction false} RecordTells(c: Contract, left: seq<Value>, right: seq<Value>, le: (Value, Value) -> bool)
    requires TotalOrder(le) && ContractHolds(c, le) && Rows(left) && Rows(right)
    ensures TellsFacts(Recorded(Compare(c, Parse(c.primary, left), Parse(c.replication, right), le), le),
                       c, left, right)
  {
    var findings := Compare(c, Parse(c.primary, left), Parse(c.replication, right), le);
    var documents := Mapped(findings, Document);
    forall d | d in Recorded(findings, le) ensures exists f :: Fact(f, c, left, right) && Says(d, f) {
      SortMembers(documents, le, d);
      var i :| 0 <= i < |documents| && documents[i] == d;
      FindingsTell(c, left, right, le, findings[i]);
      DocumentSays(findings[i]);
    }
    forall f | Fact(f, c, left, right) ensures ToldIn(Recorded(findings, le), f) {
      FindingsTell(c, left, right, le, f);
      var i :| 0 <= i < |findings| && findings[i] == f;
      assert documents[i] == Document(f);
      SortMembers(documents, le, Document(f));
      DocumentSays(f);
      var j :| 0 <= j < |Recorded(findings, le)| && Recorded(findings, le)[j] == Document(f);
      ToldBy(Recorded(findings, le), f, j);
    }
  }

  ghost predicate NoFact(c: Contract, left: seq<Value>, right: seq<Value>) { forall f :: !Fact(f, c, left, right) }

  lemma NothingToTell(documents: seq<Value>, c: Contract, left: seq<Value>, right: seq<Value>)
    requires TellsFacts(documents, c, left, right)
    ensures documents == [] <==> NoFact(c, left, right)
  {
    if documents != [] { assert documents[0] in documents; }
  }

  /** One output of the payload: the implementation, by name and code, and its rows. */
  predicate OutputIs(v: Value, i: Identity, rows: seq<Value>) {
    && FieldIs(v, "implementation_id", Text(i.implementationId)) && FieldIs(v, "code_hash", Text(i.codeHash))
    && FieldIs(v, "observations", List(rows))
  }

  /** The payload names what was compared: the protocol, the data, the contract and its digest, and both outputs. */
  ghost predicate Names(payload: Value, c: Contract, left: seq<Value>, right: seq<Value>, le: (Value, Value) -> bool,
                        digest: Value -> string) {
    && FieldIs(payload, "protocol_hash", Text(c.protocolHash))
    && FieldIs(payload, "data_snapshot_hash", Text(c.dataHash))
    && "contract" in payload.fields && ReadsContract(payload.fields["contract"], c, le)
    && FieldIs(payload, "contract_hash", Text(digest(payload.fields["contract"])))
    && "outputs" in payload.fields && payload.fields["outputs"].List? && |payload.fields["outputs"].items| == 2
    && OutputIs(payload.fields["outputs"].items[0], c.primary, left)
    && OutputIs(payload.fields["outputs"].items[1], c.replication, right)
  }

  /** It records every fact about the two lists and nothing else, and passes when there is none. */
  ghost predicate Truthful(payload: Value, c: Contract, left: seq<Value>, right: seq<Value>) {
    && payload.Object? && "discrepancies" in payload.fields && payload.fields["discrepancies"].List?
    && TellsFacts(payload.fields["discrepancies"].items, c, left, right)
    && "passed" in payload.fields && (payload.fields["passed"] == Bool(true) <==> NoFact(c, left, right))
  }

  lemma {:induction false} PayloadIsTruthful(c: Contract, left: seq<Value>, right: seq<Value>, documents: seq<Value>,
                                             digest: Value -> string)
    requires TellsFacts(documents, c, left, right)
    ensures Truthful(Payload(c, left, right, documents, digest), c, left, right)
  {
    PayloadParts(c, left, right, documents, digest);
    NothingToTell(documents, c, left, right);
  }

  lemma {:induction false} OutputTells(i: Identity, rows: seq<Value>)
    ensures OutputIs(Output(i, rows), i, rows)
  {
  }

  lemma {:induction false} PayloadNames(c: Contract, left: seq<Value>, right: seq<Value>, documents: seq<Value>,
                                        le: (Value, Value) -> bool, digest: Value -> string)
    requires TotalOrder(le) && ContractHolds(c, le)
    ensures Names(Payload(c, left, right, documents, digest), c, left, right, le, digest)
  {
    PayloadParts(c, left, right, documents, digest);
    ContractRoundTrip(c, le);
    ContractTells(ContractPayload(c), c, le);
    OutputTells(c.primary, left);
    OutputTells(c.replication, right);
  }

  /** The evidence of two outputs names them, records every fact about them and passes when there is none. */
  lemma {:induction false} EvidenceTells(c: Contract, left: Value, right: Value, le: (Value, Value) -> bool,
                                         digest: Value -> string)
    requires Lawful(le, digest) && ContractHolds(c, le) && Built(c, left, right, le, digest).Done?
    ensures var payload, l, r := Built(c, left, right, le, digest).value, NormalizedObservations(left, le).value,
                                 NormalizedObservations(right, le).value;
      Names(payload, c, l, r, le, digest) && Truthful(payload, c, l, r)
  {
    var l, r := NormalizedObservations(left, le).value, NormalizedObservations(right, le).value;
    CanonicalListIsRows(left, le);
    CanonicalListIsRows(right, le);
    RecordTells(c, l, r, le);
    PayloadIsTruthful(c, l, r, Deserved(c, l, r, le), digest);
    PayloadNames(c, l, r, Deserved(c, l, r, le), le, digest);
  }
}
