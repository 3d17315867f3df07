/**
 * The ADO.NET integration's naming rule: the database type is derived from
 * the command class name, and it decides whether a span is created and what
 * its service and operation names are.
 */
module AdoNet {
  import opened Wrappers
  import Text

  const CommandSuffix := "Command"

  /**
   * `GetDbType`: two well-known commands have fixed names, two wrapper
   * commands are skipped (`None`), and any other name loses a trailing
   * "Command" and is lower-cased.
   */
  function DbType(commandTypeName: string): (r: Option<string>)
    ensures r.None? <==> commandTypeName in {"InterceptableDbCommand", "ProfiledDbCommand"}
  {
    if commandTypeName == "SqlCommand" then Some("sql-server")
    else if commandTypeName == "NpgsqlCommand" then Some("postgres")
    else if commandTypeName == "InterceptableDbCommand" || commandTypeName == "ProfiledDbCommand" then None
    else if Text.EndsWith(commandTypeName, CommandSuffix) then
      Some(Text.Lower(commandTypeName[..|commandTypeName| - |CommandSuffix|]))
    else Some(Text.Lower(commandTypeName))
  }

  /** The fixed names. */
  lemma WellKnownCommands()
    ensures DbType("SqlCommand") == Some("sql-server")
    ensures DbType("NpgsqlCommand") == Some("postgres")
    ensures DbType("Command") == Some("")
  {
  }

  /**
   * Any other command class `<prefix>Command` is named by its lower-cased
   * prefix, and a class not ending in "Command" by its whole lower-cased name.
   */
  lemma SuffixStripped(prefix: string)
    requires prefix + CommandSuffix !in {"SqlCommand", "NpgsqlCommand", "InterceptableDbCommand", "ProfiledDbCommand"}
    ensures DbType(prefix + CommandSuffix) == Some(Text.Lower(prefix))
  {
    var name := prefix + CommandSuffix;
    assert name[|name| - |CommandSuffix|..] == CommandSuffix;
    assert name[..|name| - |CommandSuffix|] == prefix;
  }

  lemma SpecialNamesEndInCommand()
    ensures forall name :: name in {"SqlCommand", "NpgsqlCommand", "InterceptableDbCommand", "ProfiledDbCommand"} ==> Text.EndsWith(name, CommandSuffix)
  {
    assert "SqlCommand" == "Sql" + CommandSuffix;
    assert "NpgsqlCommand" == "Npgsql" + CommandSuffix;
    assert "InterceptableDbCommand" == "InterceptableDb" + CommandSuffix;
    assert "ProfiledDbCommand" == "ProfiledDb" + CommandSuffix;
  }

  lemma OtherNamesLowered(name: string)
    requires !Text.EndsWith(name, CommandSuffix)
    ensures DbType(name) == Some(Text.Lower(name))
  {
    SpecialNamesEndInCommand();
  }

  /**
   * What `CreateScope` starts: the span's names, its `db.type` tag, the tags
   * `AddTagsFromDbCommand` adds after it, and the analytics rate.
   */
  datatype ScopeInfo = ScopeInfo(operationName: string, serviceName: string, dbTypeTag: string,
                                 commandTags: seq<(string, string)>, analyticsSampleRate: Option<real>)

  /**
   * `CreateScope`: no scope when the integration is disabled or the command
   * is skipped; otherwise `<dbType>.query` under the service
   * `<default service>-<dbType>`. `commandTags` are the connection tags
   * `AddTagsFromDbCommand` reads from the command, which is foreign.
   */
  function CreateScope(integrationEnabled: bool, defaultServiceName: string, commandTypeName: string,
                       commandTags: seq<(string, string)>, analyticsSampleRate: Option<real>): (r: Option<ScopeInfo>)
    ensures r.Some? <==> integrationEnabled && DbType(commandTypeName).Some?
    ensures r.Some? ==> var dbType := DbType(commandTypeName).value;
                        && r.value.serviceName == defaultServiceName + "-" + dbType
                        && r.value.operationName == dbType + ".query"
                        && r.value.dbTypeTag == dbType
                        && r.value.commandTags == commandTags
                        && r.value.analyticsSampleRate == analyticsSampleRate
  {
    if !integrationEnabled then None
    else match DbType(commandTypeName)
      case None => None
      case Some(dbType) => Some(ScopeInfo(dbType + ".query", defaultServiceName + "-" + dbType, dbType, commandTags, analyticsSampleRate))
  }

  /**
   * A command class `<prefix>Command` other than the four special ones gets
   * `<prefix>.query` on `<service>-<prefix>`, the prefix lower-cased; so
   * `SqlCommand`'s fixed name is what spells `sql-server.query`.
   */
  lemma ScopeForCommandClass(defaultServiceName: string, prefix: string, commandTags: seq<(string, string)>,
                             analyticsSampleRate: Option<real>)
    requires prefix + CommandSuffix !in {"SqlCommand", "NpgsqlCommand", "InterceptableDbCommand", "ProfiledDbCommand"}
    ensures var dbType := Text.Lower(prefix);
            CreateScope(true, defaultServiceName, prefix + CommandSuffix, commandTags, analyticsSampleRate)
            == Some(ScopeInfo(dbType + ".query", defaultServiceName + "-" + dbType, dbType, commandTags, analyticsSampleRate))
  {
    SuffixStripped(prefix);
  }

  /**
   * The span's names carry the database type and nothing else: under one
   * default service, two scopes have the same service name exactly when
   * they have the same operation name, exactly when their `db.type` agrees.
   */
  lemma ScopeNamesDetermineEachOther(defaultServiceName: string, name1: string, name2: string,
                                     tags1: seq<(string, string)>, tags2: seq<(string, string)>,
                                     rate1: Option<real>, rate2: Option<real>)
    requires CreateScope(true, defaultServiceName, name1, tags1, rate1).Some?
    requires CreateScope(true, defaultServiceName, name2, tags2, rate2).Some?
    ensures var s1 := CreateScope(true, defaultServiceName, name1, tags1, rate1).value;
            var s2 := CreateScope(true, defaultServiceName, name2, tags2, rate2).value;
            && (s1.serviceName == s2.serviceName <==> s1.dbTypeTag == s2.dbTypeTag)
            && (s1.operationName == s2.operationName <==> s1.dbTypeTag == s2.dbTypeTag)
  {
    var s1 := CreateScope(true, defaultServiceName, name1, tags1, rate1).value;
    var s2 := CreateScope(true, defaultServiceName, name2, tags2, rate2).value;
    var a, b := s1.dbTypeTag, s2.dbTypeTag;
    var n := |defaultServiceName| + 1;
    if s1.serviceName == s2.serviceName {
      assert a == s1.serviceName[n..] && b == s2.serviceName[n..];
    }
    if s1.operationName == s2.operationName {
      assert a == s1.operationName[..|a|] && b == s2.operationName[..|b|];
    }
  }
}
