/**
 * The four cases of packages/core/test/unit/query-interface/insert.test.ts, stated
 * on the model: a `Users` table quoted with brackets (the default form) or with
 * double quotes (the RETURNING and HANA forms).
 */
module InsertScenarios {
  import opened Wrappers
  import opened Text
  import opened InsertQuery

  function Brackets(s: string): string { "[" + s + "]" }
  function DoubleQuotes(s: string): string { "\"" + s + "\"" }

  const BracketQuoting := Quoting(Brackets, Brackets)
  const DoubleQuoting := Quoting(DoubleQuotes, DoubleQuotes)

  lemma FirstGeneratedName()
    ensures GeneratedName(1) == "sequelize_1"
  {
    assert NatToString(1) == "1";
  }

  const Zoe: seq<Column<string>> := [Column("firstName", Bound("Zoe"))]

  lemma ZoePlaceholders()
    ensures BoundCount(Zoe) == 1
    ensures Placeholders(Zoe) == ["$sequelize_1"]
    ensures Names(Zoe) == ["firstName"]
  {
    FirstGeneratedName();
    assert Zoe[..0] == [];
    assert PlaceholderFor(Zoe, 0) == "$" + "sequelize_1";
    assert "$" + "sequelize_1" == "$sequelize_1";
  }

  const ZoeOptions := InsertOptions(NoBinds, [":data"], map["data" := "abc"])

  /** `firstName: 'Zoe'` with no binds: the only bind is `sequelize_1`, holding the value. */
  lemma GeneratedPlaceholderBinds(form: SqlForm, q: Quoting)
    ensures Insert(form, q, "Users", Zoe, ZoeOptions).Success?
    ensures Insert(form, q, "Users", Zoe, ZoeOptions).value.bind == map["sequelize_1" := "Zoe"]
  {
    ZoePlaceholders();
    FirstGeneratedName();
    assert Zoe[..0] == [];
    assert GeneratedNames(1) == {"sequelize_1"};
  }

  /** The default form: `INSERT INTO [Users] ([firstName]) VALUES ($sequelize_1);`, written in its pieces. */
  lemma GeneratedPlaceholderSql()
    ensures Insert(Plain, BracketQuoting, "Users", Zoe, ZoeOptions).Success?
    ensures Insert(Plain, BracketQuoting, "Users", Zoe, ZoeOptions).value.sql
         == "INSERT INTO " + Brackets("Users") + " (" + Brackets("firstName") + ") VALUES (" + "$sequelize_1" + ");"
  {
    ZoePlaceholders();
    assert MapStrings(Brackets, ["firstName"]) == [Brackets("firstName")];
    assert InsertValues(BracketQuoting, "Users", ["firstName"], ["$sequelize_1"])
        == "INSERT INTO " + Brackets("Users") + " (" + Brackets("firstName") + ") VALUES (" + "$sequelize_1" + ")";
  }

  /**
   * With a RETURNING clause, `':data'` is quoted as an identifier and left as written,
   * although a replacement named `data` exists.
   */
  lemma ReturningNotReplaced()
    ensures Insert(Returning, DoubleQuoting, "Users", Zoe, ZoeOptions).Success?
    ensures Insert(Returning, DoubleQuoting, "Users", Zoe, ZoeOptions).value.sql
         == ("INSERT INTO " + DoubleQuotes("Users") + " (" + DoubleQuotes("firstName") + ") VALUES (" + "$sequelize_1" + ")")
            + (" RETURNING " + DoubleQuotes(":data")) + ";"
  {
    ZoePlaceholders();
    assert MapStrings(DoubleQuotes, ["firstName"]) == [DoubleQuotes("firstName")];
    assert MapStrings(DoubleQuotes, [":data"]) == [DoubleQuotes(":data")];
  }

  /** The HANA form of the first case: one parameter bound to `$sequelize_1`, read back as `:firstName`. */
  lemma GeneratedPlaceholderHana()
    ensures Insert(HanaProcedure("id"), DoubleQuoting, "Users", Zoe, ZoeOptions).Success?
    ensures Insert(HanaProcedure("id"), DoubleQuoting, "Users", Zoe, ZoeOptions).value.sql
         == HanaReturnIdWrapper(HanaInsert(DoubleQuoting, "Users", ["firstName"]),
                                HanaParameters(["firstName"], ["$sequelize_1"]), "id")
  {
    ZoePlaceholders();
    HanaForm(DoubleQuoting, "Users", Zoe, ZoeOptions, "id");
  }

  /** The procedure of the first case reads `:firstName` and binds it to `$sequelize_1`. */
  lemma GeneratedPlaceholderHanaParts()
    ensures HanaInsert(DoubleQuoting, "Users", ["firstName"])
         == "INSERT INTO " + DoubleQuotes("Users") + " (" + DoubleQuotes("firstName") + ") VALUES (" + ":firstName" + ")" + ";"
    ensures HanaParameters(["firstName"], ["$sequelize_1"]) == "IN " + "firstName" + " NVARCHAR(5000) => " + "$sequelize_1"
  {
    assert MapStrings(DoubleQuotes, ["firstName"]) == [DoubleQuotes("firstName")];
    assert ParameterReferences(["firstName"]) == [":" + "firstName"];
    assert ":" + "firstName" == ":firstName";
    assert HanaParameterList(["firstName"], ["$sequelize_1"]) == ["IN " + "firstName" + " NVARCHAR(5000) => " + "$sequelize_1"];
  }

  /** A caller bind named `sequelize_test` makes the insert fail with the reserved-prefix message. */
  lemma ReservedPrefixRejected(form: SqlForm, q: Quoting)
    ensures Insert(form, q, "Users", [Column("firstName", Raw("$sequelize_test"))],
                   InsertOptions(Named(map["sequelize_test" := "test"]), [], map[]))
         == Failure(ReservedPrefixMessage)
  {
    assert Reserved("sequelize_test");
    assert "sequelize_test" in CallerBinds(Named(map["sequelize_test" := "test"]));
  }

  /** A raw `$firstName` and a bound `'Doe'`: only the bound value takes a generated name. */
  const JohnDoe: seq<Column<string>> := [Column("firstName", Raw("$firstName")), Column("lastName", Bound("Doe"))]

  lemma JohnDoePlaceholders()
    ensures BoundCount(JohnDoe) == 1
    ensures Placeholders(JohnDoe) == ["$firstName", "$sequelize_1"]
    ensures Names(JohnDoe) == ["firstName", "lastName"]
  {
    FirstGeneratedName();
    assert JohnDoe[..0] == [];
    assert JohnDoe[..1] == [JohnDoe[0]];
    assert BoundCount(JohnDoe[..1]) == 0;
    assert PlaceholderFor(JohnDoe, 1) == "$" + "sequelize_1";
    assert "$" + "sequelize_1" == "$sequelize_1";
  }

  /** Object binds: the caller's `firstName` and the generated `sequelize_1` side by side. */
  lemma ObjectBindsMerged(form: SqlForm, q: Quoting)
    ensures var r := Insert(form, q, "Users", JohnDoe, InsertOptions(Named(map["firstName" := "John"]), [], map[]));
      r.Success? && r.value.bind == map["firstName" := "John", "sequelize_1" := "Doe"]
  {
    var r := Insert(form, q, "Users", JohnDoe, InsertOptions(Named(map["firstName" := "John"]), [], map[]));
    ObjectBindEntries(r.value.bind, form, q);
    var expected := map["firstName" := "John", "sequelize_1" := "Doe"];
    assert expected.Keys == {"firstName", "sequelize_1"};
    assert r.value.bind.Keys == expected.Keys;
  }

  lemma ObjectBindEntries(bind: map<string, string>, form: SqlForm, q: Quoting)
    requires var r := Insert(form, q, "Users", JohnDoe, InsertOptions(Named(map["firstName" := "John"]), [], map[]));
      r.Success? ==> bind == r.value.bind
    ensures var r := Insert(form, q, "Users", JohnDoe, InsertOptions(Named(map["firstName" := "John"]), [], map[]));
      r.Success? && bind.Keys == {"firstName", "sequelize_1"} && bind["firstName"] == "John" && bind["sequelize_1"] == "Doe"
  {
    JohnDoePlaceholders();
    FirstGeneratedName();
    assert JohnDoe[..1] == [JohnDoe[0]];
    assert GeneratedNames(1) == {"sequelize_1"};
    assert !Reserved("firstName") by { assert "firstName"[0] != ReservedPrefix[0]; }
    assert JohnDoe[1].value.Bound?;
    assert GeneratedName(BoundCount(JohnDoe[..1]) + 1) == "sequelize_1";
  }

  /** The default form of the object-bind case: the raw literal is copied, the bound value is `$sequelize_1`. */
  lemma ObjectBindsSql()
    ensures var r := Insert(Plain, BracketQuoting, "Users", JohnDoe, InsertOptions(Named(map["firstName" := "John"]), [], map[]));
      r.Success? && r.value.sql
        == "INSERT INTO " + Brackets("Users") + " (" + (Brackets("firstName") + "," + Brackets("lastName")) + ") VALUES ("
           + ("$firstName" + "," + "$sequelize_1") + ")" + ";"
  {
    JohnDoePlaceholders();
    assert !Reserved("firstName") by { assert "firstName"[0] != ReservedPrefix[0]; }
    assert MapStrings(Brackets, ["firstName", "lastName"]) == [Brackets("firstName"), Brackets("lastName")];
    assert Separated([Brackets("firstName"), Brackets("lastName")], ",") == Brackets("firstName") + "," + Brackets("lastName");
    assert Separated(["$firstName", "$sequelize_1"], ",") == "$firstName" + "," + "$sequelize_1";
  }

  /** The HANA form of the object-bind case: one procedure parameter per column, in column order. */
  lemma ObjectBindsHana()
    ensures var r := Insert(HanaProcedure("id"), DoubleQuoting, "Users", JohnDoe,
                            InsertOptions(Named(map["firstName" := "John"]), [], map[]));
      r.Success? && r.value.sql
        == HanaReturnIdWrapper(HanaInsert(DoubleQuoting, "Users", ["firstName", "lastName"]),
                               HanaParameters(["firstName", "lastName"], ["$firstName", "$sequelize_1"]), "id")
  {
    JohnDoePlaceholders();
    assert !Reserved("firstName") by { assert "firstName"[0] != ReservedPrefix[0]; }
    HanaForm(DoubleQuoting, "Users", JohnDoe, InsertOptions(Named(map["firstName" := "John"]), [], map[]), "id");
  }

  /** The procedure of the object-bind case reads `:firstName,:lastName` and binds them in column order. */
  lemma ObjectBindsHanaParts()
    ensures HanaInsert(DoubleQuoting, "Users", ["firstName", "lastName"])
         == "INSERT INTO " + DoubleQuotes("Users") + " (" + (DoubleQuotes("firstName") + "," + DoubleQuotes("lastName"))
            + ") VALUES (" + (":firstName" + "," + ":lastName") + ")" + ";"
    ensures HanaParameters(["firstName", "lastName"], ["$firstName", "$sequelize_1"])
         == ("IN " + "firstName" + " NVARCHAR(5000) => " + "$firstName")
            + ", " + ("IN " + "lastName" + " NVARCHAR(5000) => " + "$sequelize_1")
  {
    assert MapStrings(DoubleQuotes, ["firstName", "lastName"]) == [DoubleQuotes("firstName"), DoubleQuotes("lastName")];
    assert ":" + "firstName" == ":firstName" && ":" + "lastName" == ":lastName";
    assert ParameterReferences(["firstName", "lastName"]) == [":firstName", ":lastName"];
    assert Separated([":firstName", ":lastName"], ",") == ":firstName" + "," + ":lastName";
    assert Separated([DoubleQuotes("firstName"), DoubleQuotes("lastName")], ",")
        == DoubleQuotes("firstName") + "," + DoubleQuotes("lastName");
    var parameters := HanaParameterList(["firstName", "lastName"], ["$firstName", "$sequelize_1"]);
    assert parameters == ["IN " + "firstName" + " NVARCHAR(5000) => " + "$firstName",
                          "IN " + "lastName" + " NVARCHAR(5000) => " + "$sequelize_1"];
    assert Separated(parameters, ", ") == parameters[0] + ", " + parameters[1];
  }

  const ArrayColumns: seq<Column<string>> := [Column("firstName", Raw("$1")), Column("lastName", Bound("Doe"))]

  lemma ArrayColumnsBinding()
    ensures BoundCount(ArrayColumns) == 1
    ensures BoundCount(ArrayColumns[..1]) == 0
    ensures CallerBinds(Positional(["John"])) == map["1" := "John"]
  {
    assert ArrayColumns[..1] == [ArrayColumns[0]];
    assert ArrayColumns[..1][..0] == [];
    assert NatToString(1) == "1";
    assert ["John"][..0] == [];
  }

  /** Array binds: `['John']` becomes the key `1`, next to the generated `sequelize_1`. */
  lemma ArrayBindsMerged(form: SqlForm, q: Quoting)
    ensures var r := Insert(form, q, "Users", ArrayColumns, InsertOptions(Positional(["John"]), [], map[]));
      r.Success? && r.value.bind == map["1" := "John", "sequelize_1" := "Doe"]
  {
    var r := Insert(form, q, "Users", ArrayColumns, InsertOptions(Positional(["John"]), [], map[]));
    ArrayBindEntries(r.value.bind, form, q);
    var expected := map["1" := "John", "sequelize_1" := "Doe"];
    assert expected.Keys == {"1", "sequelize_1"};
    assert r.value.bind.Keys == expected.Keys;
  }

  lemma ArrayBindEntries(bind: map<string, string>, form: SqlForm, q: Quoting)
    requires var r := Insert(form, q, "Users", ArrayColumns, InsertOptions(Positional(["John"]), [], map[]));
      r.Success? ==> bind == r.value.bind
    ensures var r := Insert(form, q, "Users", ArrayColumns, InsertOptions(Positional(["John"]), [], map[]));
      r.Success? && bind.Keys == {"1", "sequelize_1"} && bind["1"] == "John" && bind["sequelize_1"] == "Doe"
  {
    ArrayColumnsBinding();
    FirstGeneratedName();
    assert GeneratedNames(1) == {"sequelize_1"};
    PositionalNeverReserved(["John"]);
    assert ArrayColumns[1].value.Bound?;
    assert GeneratedName(BoundCount(ArrayColumns[..1]) + 1) == "sequelize_1";
  }

  /** The raw `$1` is copied; only `lastName` takes a generated name, `$sequelize_1`. */
  lemma ArrayPlaceholders()
    ensures Placeholders(ArrayColumns) == ["$1", "$sequelize_1"]
    ensures Names(ArrayColumns) == ["firstName", "lastName"]
  {
    ArrayColumnsBinding();
    FirstGeneratedName();
    assert PlaceholderFor(ArrayColumns, 0) == "$1";
    assert PlaceholderFor(ArrayColumns, 1) == "$" + "sequelize_1";
    assert "$" + "sequelize_1" == "$sequelize_1";
  }

  /** The default form of the array-bind case: `$1` from the caller beside the generated `$sequelize_1`. */
  lemma ArrayBindsSql()
    ensures var r := Insert(Plain, BracketQuoting, "Users", ArrayColumns, InsertOptions(Positional(["John"]), [], map[]));
      r.Success? && r.value.sql
        == "INSERT INTO " + Brackets("Users") + " (" + (Brackets("firstName") + "," + Brackets("lastName")) + ") VALUES ("
           + ("$1" + "," + "$sequelize_1") + ")" + ";"
  {
    ArrayPlaceholders();
    PositionalNeverReserved(["John"]);
    assert MapStrings(Brackets, ["firstName", "lastName"]) == [Brackets("firstName"), Brackets("lastName")];
    assert Separated([Brackets("firstName"), Brackets("lastName")], ",") == Brackets("firstName") + "," + Brackets("lastName");
    assert Separated(["$1", "$sequelize_1"], ",") == "$1" + "," + "$sequelize_1";
  }

  /** The HANA form of the array-bind case: the same insert as the object-bind case, parameters `$1` and `$sequelize_1`. */
  lemma ArrayBindsHana()
    ensures var r := Insert(HanaProcedure("id"), DoubleQuoting, "Users", ArrayColumns,
                            InsertOptions(Positional(["John"]), [], map[]));
      r.Success? && r.value.sql
        == HanaReturnIdWrapper(HanaInsert(DoubleQuoting, "Users", ["firstName", "lastName"]),
                               HanaParameters(["firstName", "lastName"], ["$1", "$sequelize_1"]), "id")
  {
    ArrayPlaceholders();
    PositionalNeverReserved(["John"]);
    HanaForm(DoubleQuoting, "Users", ArrayColumns, InsertOptions(Positional(["John"]), [], map[]), "id");
  }

  /** The procedure's parameters in the array-bind case bind `firstName` to `$1` and `lastName` to `$sequelize_1`. */
  lemma ArrayBindsHanaParts()
    ensures HanaParameters(["firstName", "lastName"], ["$1", "$sequelize_1"])
         == ("IN " + "firstName" + " NVARCHAR(5000) => " + "$1")
            + ", " + ("IN " + "lastName" + " NVARCHAR(5000) => " + "$sequelize_1")
  {
    var parameters := HanaParameterList(["firstName", "lastName"], ["$1", "$sequelize_1"]);
    assert parameters == ["IN " + "firstName" + " NVARCHAR(5000) => " + "$1",
                          "IN " + "lastName" + " NVARCHAR(5000) => " + "$sequelize_1"];
    assert Separated(parameters, ", ") == parameters[0] + ", " + parameters[1];
  }
}
