/**
 * The insert statement and its bind parameters, as fixed by the cases of
 * packages/core/test/unit/query-interface/insert.test.ts.
 *
 * A row is an ordered list of columns. A column's value is either a value to be
 * bound, which gets a generated `$sequelize_N` placeholder, or a raw SQL literal,
 * which is copied into the statement as written. The caller's own bind parameters
 * (an object or an array) are merged with the generated ones.
 */
module InsertQuery {
  import opened Wrappers
  import opened Text

  datatype Value<V> = Bound(value: V) | Raw(sql: string)
  datatype Column<V> = Column(name: string, value: Value<V>)

  /** The caller's `bind` option: absent, an object, or an array. */
  datatype Binds<V> = NoBinds | Named(entries: map<string, V>) | Positional(values: seq<V>)

  datatype InsertOptions<V> = InsertOptions(bind: Binds<V>, returning: seq<string>, replacements: map<string, V>)

  /** How the dialect quotes a table name and an identifier. */
  datatype Quoting = Quoting(table: string -> string, identifier: string -> string)

  /**
   * The statement shapes: the default one, one that appends a RETURNING clause,
   * and the HANA anonymous procedure that reports the identity value.
   */
  datatype SqlForm = Plain | Returning | HanaProcedure(primaryKey: string)

  /** What reaches `queryRaw`: the SQL text and the merged bind parameters. */
  datatype Query<V> = Query(sql: string, bind: map<string, V>)

  const ReservedPrefix := "sequelize_"

  const ReservedPrefixMessage :=
    "Bind parameters cannot start with \"sequelize_\", these bind parameters are reserved by Sequelize."

  // ---------------------------------------------------------------- generated names

  /** The name of the k-th generated bind parameter. */
  function GeneratedName(k: nat): (r: string)
    ensures StartsWith(r, ReservedPrefix)
  {
    StartsWithAppend(ReservedPrefix, NatToString(k));
    ReservedPrefix + NatToString(k)
  }

  lemma GeneratedNameInjective(a: nat, b: nat)
    requires GeneratedName(a) == GeneratedName(b)
    ensures a == b
  {
    assert NatToString(a) == GeneratedName(a)[|ReservedPrefix|..];
    assert NatToString(b) == GeneratedName(b)[|ReservedPrefix|..];
    NatToStringInjective(a, b);
  }

  /** The names of the first `count` generated parameters. */
  function GeneratedNames(count: nat): set<string>
  {
    set k: nat | 1 <= k <= count :: GeneratedName(k)
  }

  lemma NextNameIsFresh(count: nat)
    ensures GeneratedName(count + 1) !in GeneratedNames(count)
    ensures GeneratedNames(count + 1) == GeneratedNames(count) + {GeneratedName(count + 1)}
  {
    if GeneratedName(count + 1) in GeneratedNames(count) {
      var k: nat :| 1 <= k <= count && GeneratedName(k) == GeneratedName(count + 1);
      GeneratedNameInjective(k, count + 1);
    }
  }

  // ---------------------------------------------------------------- placeholders

  /** How many of the columns hold a value to be bound. */
  function BoundCount<V>(columns: seq<Column<V>>): nat
  {
    if columns == [] then 0
    else BoundCount(columns[..|columns| - 1]) + (if columns[|columns| - 1].value.Bound? then 1 else 0)
  }

  lemma {:induction false} BoundCountMonotonic<V>(columns: seq<Column<V>>, i: nat, j: nat)
    requires i <= j <= |columns|
    ensures BoundCount(columns[..i]) <= BoundCount(columns[..j])
    decreases j
  {
    if i < j {
      assert columns[..j][..j - 1] == columns[..j - 1];
      BoundCountMonotonic(columns, i, j - 1);
    }
  }

  /**
   * The placeholder column i gets: its raw SQL as written, or `$sequelize_N` where N
   * counts the bound columns up to and including this one.
   */
  function PlaceholderFor<V>(columns: seq<Column<V>>, i: nat): string
    requires i < |columns|
  {
    match columns[i].value
    case Raw(sql) => sql
    case Bound(_) => "$" + GeneratedName(BoundCount(columns[..i]) + 1)
  }

  function Placeholders<V>(columns: seq<Column<V>>): (r: seq<string>)
    ensures |r| == |columns|
  {
    seq(|columns|, i requires 0 <= i < |columns| => PlaceholderFor(columns, i))
  }

  /** Two different bound columns never share a placeholder. */
  lemma PlaceholdersDistinct<V>(columns: seq<Column<V>>, i: nat, j: nat)
    requires i < j < |columns| && columns[i].value.Bound? && columns[j].value.Bound?
    ensures PlaceholderFor(columns, i) != PlaceholderFor(columns, j)
  {
    var before := BoundCount(columns[..i]) + 1;
    var after := BoundCount(columns[..j]) + 1;
    assert columns[..i + 1][..i] == columns[..i];
    assert BoundCount(columns[..i + 1]) == before;
    BoundCountMonotonic(columns, i + 1, j);
    DollarInjective(GeneratedName(before), GeneratedName(after));
    if GeneratedName(before) == GeneratedName(after) {
      GeneratedNameInjective(before, after);
    }
  }

  lemma DollarInjective(a: string, b: string)
    ensures "$" + a == "$" + b ==> a == b
  {
    if "$" + a == "$" + b {
      assert a == ("$" + a)[1..];
    }
  }

  /** The outcome of walking the columns: their placeholders, the generated binds, the counter. */
  datatype Binding<V> = Binding(placeholders: seq<string>, generated: map<string, V>, count: nat)

  /**
   * Walks the columns in order, handing each bound value the next generated name.
   * Every column gets its specified placeholder, and the generated map holds exactly
   * the names `sequelize_1 … sequelize_count`.
   */
  function Bindify<V>(columns: seq<Column<V>>): (r: Binding<V>)
    ensures r.count == BoundCount(columns)
    ensures r.placeholders == Placeholders(columns)
    ensures r.generated.Keys == GeneratedNames(r.count)
  {
    if columns == [] then Binding([], map[], 0)
    else
      var n := |columns| - 1;
      var previous := Bindify(columns[..n]);
      PrefixAgrees(columns);
      match columns[n].value
      case Raw(sql) =>
        Binding(previous.placeholders + [sql], previous.generated, previous.count)
      case Bound(v) =>
        var name := GeneratedName(previous.count + 1);
        NextNameIsFresh(previous.count);
        Binding(previous.placeholders + ["$" + name], previous.generated[name := v], previous.count + 1)
  }

  /** A bound column's value is stored under the name of its own placeholder. */
  lemma {:induction false} BindifyValue<V>(columns: seq<Column<V>>, i: nat)
    requires i < |columns| && columns[i].value.Bound?
    ensures GeneratedName(BoundCount(columns[..i]) + 1) in Bindify(columns).generated
    ensures Bindify(columns).generated[GeneratedName(BoundCount(columns[..i]) + 1)] == columns[i].value.value
  {
    var n := |columns| - 1;
    var previous := Bindify(columns[..n]);
    assert columns[..n] == columns[..|columns| - 1];
    if i < n {
      assert columns[..n][..i] == columns[..i];
      BindifyValue(columns[..n], i);
      NextNameIsFresh(previous.count);
    }
  }

  /** Dropping the last column changes neither the placeholders nor the counts of the others. */
  lemma PrefixAgrees<V>(columns: seq<Column<V>>)
    requires columns != []
    ensures Placeholders(columns) == Placeholders(columns[..|columns| - 1]) + [PlaceholderFor(columns, |columns| - 1)]
    ensures forall i :: 0 <= i < |columns| - 1 ==>
      columns[..|columns| - 1][i] == columns[i] && BoundCount(columns[..|columns| - 1][..i]) == BoundCount(columns[..i])
  {
    var n := |columns| - 1;
    forall i | 0 <= i < n
      ensures columns[..n][..i] == columns[..i]
      ensures PlaceholderFor(columns[..n], i) == PlaceholderFor(columns, i)
    {
      assert columns[..n][..i] == columns[..i];
    }
  }

  // ---------------------------------------------------------------- the caller's binds

  /** The caller's binds as a map: an array's entries become the keys "1", "2", …. */
  function CallerBinds<V>(bind: Binds<V>): map<string, V>
  {
    match bind
    case NoBinds => map[]
    case Named(entries) => entries
    case Positional(values) => PositionalBinds(values)
  }

  /** The array's entries stored under their one-based positions, written as decimal keys. */
  function PositionalBinds<V>(values: seq<V>): map<string, V>
  {
    if values == [] then map[]
    else PositionalBinds(values[..|values| - 1])[NatToString(|values|) := values[|values| - 1]]
  }

  /** An array bind's i-th value is found under the key i + 1. */
  lemma {:induction false} PositionalLookup<V>(values: seq<V>, i: nat)
    requires i < |values|
    ensures NatToString(i + 1) in PositionalBinds(values)
    ensures PositionalBinds(values)[NatToString(i + 1)] == values[i]
  {
    var n := |values| - 1;
    if i < n {
      PositionalLookup(values[..n], i);
      if NatToString(i + 1) == NatToString(|values|) {
        NatToStringInjective(i + 1, |values|);
      }
    }
  }

  /** An array bind's keys are exactly "1" … "n". */
  lemma {:induction false} PositionalKeys<V>(values: seq<V>)
    ensures PositionalBinds(values).Keys == set j: nat | 1 <= j <= |values| :: NatToString(j)
  {
    if values != [] {
      var n := |values|;
      PositionalKeys(values[..n - 1]);
      var before := set j: nat | 1 <= j <= n - 1 :: NatToString(j);
      var after := set j: nat | 1 <= j <= n :: NatToString(j);
      assert after == before + {NatToString(n)} by {
        forall k | k in after ensures k in before + {NatToString(n)} {
          var j: nat :| 1 <= j <= n && k == NatToString(j);
          if j < n { assert k in before; }
        }
      }
    }
  }

  predicate Reserved(key: string) {
    StartsWith(key, ReservedPrefix)
  }

  predicate HasReservedKey<V>(binds: map<string, V>) {
    exists key :: key in binds && Reserved(key)
  }

  /** An array bind never uses the reserved prefix: its keys are digits. */
  lemma PositionalNeverReserved<V>(values: seq<V>)
    ensures !HasReservedKey(CallerBinds(Positional(values)))
  {
    PositionalKeys(values);
    forall key | key in PositionalBinds(values)
      ensures !Reserved(key)
    {
      var j: nat :| 1 <= j <= |values| && key == NatToString(j);
      assert '0' <= key[0] <= '9';
    }
  }

  // ---------------------------------------------------------------- the statement

  function Names<V>(columns: seq<Column<V>>): (r: seq<string>)
    ensures |r| == |columns|
  {
    seq(|columns|, i requires 0 <= i < |columns| => columns[i].name)
  }

  /** `INSERT INTO <table> (<columns>) VALUES (<values>)`, both lists comma-separated without spaces. */
  function InsertValues(q: Quoting, table: string, names: seq<string>, values: seq<string>): string
  {
    "INSERT INTO " + q.table(table) + " (" + Separated(MapStrings(q.identifier, names), ",")
      + ") VALUES (" + Separated(values, ",") + ")"
  }

  /** The RETURNING clause, each entry quoted as an identifier and otherwise left as written. */
  function ReturningClause(q: Quoting, returning: seq<string>): string
  {
    if returning == [] then "" else " RETURNING " + Separated(MapStrings(q.identifier, returning), ",")
  }

  /** One `IN <column> NVARCHAR(5000) => <placeholder>` parameter per column, in column order. */
  function HanaParameterList(names: seq<string>, placeholders: seq<string>): (r: seq<string>)
    requires |names| == |placeholders|
    ensures |r| == |names|
  {
    seq(|names|, i requires 0 <= i < |names| => "IN " + names[i] + " NVARCHAR(5000) => " + placeholders[i])
  }

  /** The inner INSERT of the HANA procedure reads the procedure's parameters `:<column>`. */
  function ParameterReferences(names: seq<string>): (r: seq<string>)
    ensures |r| == |names|
  {
    seq(|names|, i requires 0 <= i < |names| => ":" + names[i])
  }

  /** The INSERT inside the HANA procedure. */
  function HanaInsert(q: Quoting, table: string, names: seq<string>): string
  {
    InsertValues(q, table, names, ParameterReferences(names)) + ";"
  }

  /** The procedure's parameter list, joined with ", ". */
  function HanaParameters(names: seq<string>, placeholders: seq<string>): string
    requires |names| == |placeholders|
  {
    Separated(HanaParameterList(names, placeholders), ", ")
  }

  const Int32Min := -2147483648
  const Int32Max := 2147483647

  /** The conversion the procedure applies to the identity value before returning it. */
  datatype IdentityCast = ToInteger | ToBigint

  function Pow2(n: nat): nat
  {
    if n == 0 then 1 else 2 * Pow2(n - 1)
  }

  lemma Pow2Of31()
    ensures Pow2(31) == 2147483648
  {
    assert Pow2(8) == 256;
    assert Pow2(16) == 65536;
    assert Pow2(24) == 16777216;
  }

  /** The IF of the procedure: TO_INTEGER exactly for values that fit a signed 32-bit integer. */
  function CastFor(identity: int): (c: IdentityCast)
    ensures c == ToInteger <==> -(Pow2(31) as int) <= identity < Pow2(31)
  {
    Pow2Of31();
    if Int32Min <= identity && identity <= Int32Max then ToInteger else ToBigint
  }

  function CastName(c: IdentityCast): string
  {
    match c
    case ToInteger => "TO_INTEGER"
    case ToBigint => "TO_BIGINT"
  }

  /** The SELECT that returns the identity value, converted and aliased as the primary key. */
  function IdentitySelect(c: IdentityCast, primaryKey: string): string
  {
    "SELECT " + CastName(c) + "(:CURRENT_IDENTITY_VALUE_RESULT) as \"" + primaryKey + "\" FROM DUMMY;"
  }

  /** A decimal digit character. */
  predicate IsDigit(c: char)
  {
    '0' <= c <= '9'
  }

  predicate AllDigits(s: string)
  {
    forall i :: 0 <= i < |s| ==> IsDigit(s[i])
  }

  /** The value of a string of decimal digits, most significant first. */
  function DigitsValue(s: string): nat
    requires AllDigits(s)
  {
    if |s| == 0 then 0
    else
      assert IsDigit(s[|s| - 1]);
      var prefix := s[..|s| - 1];
      assert forall i :: 0 <= i < |prefix| ==> prefix[i] == s[i];
      10 * DigitsValue(prefix) + (s[|s| - 1] as int - '0' as int)
  }

  /** An integer literal of SQL: decimal digits, after a '-' for a negative value. */
  predicate IsIntegerLiteral(s: string)
  {
    |s| >= 1 && if s[0] == '-' then |s| >= 2 && AllDigits(s[1..]) else AllDigits(s)
  }

  /** The integer an integer literal denotes. */
  function LiteralValue(s: string): int
    requires IsIntegerLiteral(s)
  {
    if s[0] == '-' then -(DigitsValue(s[1..]) as int) else DigitsValue(s)
  }

  /** The comparisons between the two bounds of the procedure's range test. */
  const RangeOperator: string := " <= " + IdentityVariable + " AND " + IdentityVariable + " <= "

  /** The procedure's variable holding the identity value. */
  const IdentityVariable := ":CURRENT_IDENTITY_VALUE_RESULT"

  /** The IF condition of the procedure for an inclusive range between two spelled bounds. */
  function RangeCondition(lower: string, upper: string): string
  {
    lower + RangeOperator + upper
  }

  /** The index of the first space in `s`, or `|s|` when there is none. */
  function FirstSpace(s: string): (k: nat)
    ensures k <= |s|
  {
    if |s| == 0 || s[0] == ' ' then 0 else 1 + FirstSpace(s[1..])
  }

  lemma {:induction false} FirstSpaceAfter(x: string, y: string)
    requires forall i :: 0 <= i < |x| ==> x[i] != ' '
    requires |y| >= 1 && y[0] == ' '
    ensures FirstSpace(x + y) == |x|
    decreases |x|
  {
    if |x| > 0 {
      assert (x + y)[0] == x[0];
      assert (x + y)[1..] == x[1..] + y;
      FirstSpaceAfter(x[1..], y);
    }
  }

  lemma LiteralHasNoSpace(s: string)
    requires IsIntegerLiteral(s)
    ensures forall i :: 0 <= i < |s| ==> s[i] != ' '
  {
    forall i | 0 <= i < |s| ensures s[i] != ' ' {
      if s[0] == '-' && i > 0 {
        assert s[i] == s[1..][i - 1];
      }
    }
  }

  /** A range condition's text determines both of its bounds. */
  lemma RangeConditionInjective(lower: string, upper: string, lower': string, upper': string)
    requires IsIntegerLiteral(lower) && IsIntegerLiteral(lower')
    requires RangeCondition(lower, upper) == RangeCondition(lower', upper')
    ensures lower == lower' && upper == upper'
  {
    assert RangeOperator[0] == ' ';
    var s := RangeCondition(lower, upper);
    LiteralHasNoSpace(lower);
    LiteralHasNoSpace(lower');
    assert (RangeOperator + upper)[0] == ' ';
    assert (RangeOperator + upper')[0] == ' ';
    FirstSpaceAfter(lower, RangeOperator + upper);
    FirstSpaceAfter(lower', RangeOperator + upper');
    assert s == lower + (RangeOperator + upper);
    assert s == lower' + (RangeOperator + upper');
    assert lower == s[..|lower|] == lower';
    assert upper == s[|lower| + |RangeOperator|..] == upper';
  }

  /** The bounds the procedure spells. */
  const LowerBound := "-2147483648"
  const UpperBound := "2147483647"

  /** The procedure's range test. */
  const InRangeCondition := RangeCondition(LowerBound, UpperBound)

  /** The spelled bounds are the signed 32-bit range. */
  lemma BoundsAreInt32()
    ensures IsIntegerLiteral(LowerBound) && IsIntegerLiteral(UpperBound)
    ensures LiteralValue(LowerBound) == Int32Min && LiteralValue(UpperBound) == Int32Max
  {
    assert LowerBound[1..] == "2147483648";
    assert "2147483648"[..9] == "214748364";
    assert UpperBound[..9] == "214748364";
    assert "214748364"[..8] == "21474836";
    assert "21474836"[..7] == "2147483";
    assert "2147483"[..6] == "214748";
    assert "214748"[..5] == "21474";
    assert "21474"[..4] == "2147";
    assert "2147"[..3] == "214";
    assert "214"[..2] == "21";
    assert "21"[..1] == "2";
    assert "2"[..0] == "";
  }


  /** The lines of the procedure between its parameter list and the insert. */
  const HanaDeclare := "BEGIN\nDECLARE CURRENT_IDENTITY_VALUE_RESULT BIGINT;"

  /** The lines between the insert and the SELECT taken when the value is in range. */
  const HanaRangeTest :=
    "SELECT CURRENT_IDENTITY_VALUE() INTO CURRENT_IDENTITY_VALUE_RESULT FROM DUMMY;\nIF\n" + InRangeCondition + "\nTHEN"

  /** The procedure around the insert, one line per line of the template. */
  function HanaReturnIdWrapper(sql: string, parameters: string, primaryKey: string): string
  {
    "DO (" + parameters + ")\n" + HanaDeclare + "\n" + sql + "\n" + HanaRangeTest
      + "\n" + IdentitySelect(ToInteger, primaryKey) + "\nELSE\n" + IdentitySelect(ToBigint, primaryKey) + "\nEND IF;\nEND;"
  }

  /** The branch of an IF with the given range condition taken for an identity value: the bounds are read off the text. */
  ghost function SelectedBranch(condition: string, identity: int, primaryKey: string): string
    requires exists lower: string, upper: string ::
      IsIntegerLiteral(lower) && IsIntegerLiteral(upper) && condition == RangeCondition(lower, upper)
  {
    var lower: string, upper: string :|
      IsIntegerLiteral(lower) && IsIntegerLiteral(upper) && condition == RangeCondition(lower, upper);
    if LiteralValue(lower) <= identity && identity <= LiteralValue(upper)
    then IdentitySelect(ToInteger, primaryKey)
    else IdentitySelect(ToBigint, primaryKey)
  }

  /** The procedure's own condition returns the identity value converted as `CastFor` says, under the primary key's name. */
  lemma SelectedBranchCast(identity: int, primaryKey: string)
    ensures exists lower: string, upper: string ::
      IsIntegerLiteral(lower) && IsIntegerLiteral(upper) && InRangeCondition == RangeCondition(lower, upper)
    ensures SelectedBranch(InRangeCondition, identity, primaryKey) == IdentitySelect(CastFor(identity), primaryKey)
    ensures (SelectedBranch(InRangeCondition, identity, primaryKey) == IdentitySelect(ToInteger, primaryKey))
            <==> -(Pow2(31) as int) <= identity < Pow2(31)
  {
    BoundsAreInt32();
    assert IsIntegerLiteral(LowerBound) && IsIntegerLiteral(UpperBound) && InRangeCondition == RangeCondition(LowerBound, UpperBound);
    forall lower: string, upper: string |
      IsIntegerLiteral(lower) && IsIntegerLiteral(upper) && InRangeCondition == RangeCondition(lower, upper)
      ensures lower == LowerBound && upper == UpperBound
    {
      RangeConditionInjective(lower, upper, LowerBound, UpperBound);
    }
    assert |IdentitySelect(ToInteger, primaryKey)| == |IdentitySelect(ToBigint, primaryKey)| + 1;
  }

  function Statement<V>(form: SqlForm, q: Quoting, table: string, columns: seq<Column<V>>,
                        placeholders: seq<string>, returning: seq<string>): string
    requires |placeholders| == |columns|
  {
    match form
    case Plain => InsertValues(q, table, Names(columns), placeholders) + ";"
    case Returning => InsertValues(q, table, Names(columns), placeholders) + ReturningClause(q, returning) + ";"
    case HanaProcedure(primaryKey) =>
      HanaReturnIdWrapper(HanaInsert(q, table, Names(columns)), HanaParameters(Names(columns), placeholders), primaryKey)
  }

  // ---------------------------------------------------------------- insert

  /**
   * The insert: refused with the reserved-prefix message when a caller bind uses the
   * prefix; otherwise the statement with each column's placeholder, and the caller's
   * binds merged with the generated ones, neither overriding the other.
   */
  function Insert<V>(form: SqlForm, q: Quoting, table: string, columns: seq<Column<V>>, options: InsertOptions<V>)
    : (r: Result<Query<V>, string>)
    ensures r.Failure? <==> HasReservedKey(CallerBinds(options.bind))
    ensures r.Failure? ==> r.error == ReservedPrefixMessage
    ensures r.Success? ==> r.value.sql == Statement(form, q, table, columns, Placeholders(columns), options.returning)
    ensures r.Success? ==>
      r.value.bind.Keys == CallerBinds(options.bind).Keys + GeneratedNames(BoundCount(columns))
    ensures r.Success? ==> forall key :: key in CallerBinds(options.bind) ==>
      r.value.bind[key] == CallerBinds(options.bind)[key]
    ensures r.Success? ==> forall i :: 0 <= i < |columns| && columns[i].value.Bound? ==>
      GeneratedName(BoundCount(columns[..i]) + 1) in r.value.bind &&
      r.value.bind[GeneratedName(BoundCount(columns[..i]) + 1)] == columns[i].value.value
  {
    var caller := CallerBinds(options.bind);
    if HasReservedKey(caller) then Failure(ReservedPrefixMessage)
    else
      var binding := Bindify(columns);
      forall i | 0 <= i < |columns| && columns[i].value.Bound?
        ensures GeneratedName(BoundCount(columns[..i]) + 1) in binding.generated
        ensures binding.generated[GeneratedName(BoundCount(columns[..i]) + 1)] == columns[i].value.value
      {
        BindifyValue(columns, i);
      }
      assert caller.Keys !! binding.generated.Keys by {
        forall key | key in binding.generated.Keys ensures key !in caller {
          var k: nat :| 1 <= k <= binding.count && key == GeneratedName(k);
        }
      }
      Success(Query(Statement(form, q, table, columns, binding.placeholders, options.returning),
                    caller + binding.generated))
  }

  /** The HANA form: the insert over the procedure's parameters, one parameter per column. */
  lemma HanaForm<V>(q: Quoting, table: string, columns: seq<Column<V>>, options: InsertOptions<V>, primaryKey: string)
    requires !HasReservedKey(CallerBinds(options.bind))
    ensures Insert(HanaProcedure(primaryKey), q, table, columns, options).Success?
    ensures Insert(HanaProcedure(primaryKey), q, table, columns, options).value.sql
         == HanaReturnIdWrapper(HanaInsert(q, table, Names(columns)), HanaParameters(Names(columns), Placeholders(columns)), primaryKey)
  {
  }

  /** Replacements never reach the statement: the result is the same whatever they are. */
  lemma ReplacementsIgnored<V>(form: SqlForm, q: Quoting, table: string, columns: seq<Column<V>>,
                               options: InsertOptions<V>, replacements: map<string, V>)
    ensures Insert(form, q, table, columns, options)
         == Insert(form, q, table, columns, options.(replacements := replacements))
  {
  }

  /** The returning entries are quoted as identifiers and never substituted, whatever replacements exist. */
  lemma ReturningVerbatim<V>(q: Quoting, table: string, columns: seq<Column<V>>, options: InsertOptions<V>, entry: string)
    requires options.returning == [entry]
    requires !HasReservedKey(CallerBinds(options.bind))
    ensures Insert(Returning, q, table, columns, options).Success?
    ensures EndsWith(Insert(Returning, q, table, columns, options).value.sql, " RETURNING " + q.identifier(entry) + ";")
  {
    var v := InsertValues(q, table, Names(columns), Placeholders(columns));
    assert MapStrings(q.identifier, [entry]) == [q.identifier(entry)];
    assert ReturningClause(q, [entry]) == " RETURNING " + q.identifier(entry);
    EndsWithAppend(v, " RETURNING " + q.identifier(entry) + ";");
    assert v + ReturningClause(q, [entry]) + ";" == v + (" RETURNING " + q.identifier(entry) + ";");
  }
}
