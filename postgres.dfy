/**
 * Connection strings of the PostgreSQL storage layer
 * (server/storage/postgres/postgres.go): the credential record, the
 * builder that renders it as space-separated `key=value` tokens, and the
 * rewrite that points an existing connection string at another database.
 *
 * Values are never quoted or escaped. The output is in the libpq
 * keyword/value form (section 34.1.1 of the PostgreSQL 16 documentation)
 * only when every rendered value is non-empty and holds no whitespace, no
 * `\` and no leading `'`; an empty field, for one, renders as `host= port=…`,
 * which libpq reads differently. How the driver reads the string is not
 * modelled.
 */
module Postgres {
  import opened Strings

  /** The credential record `DBInfo`, fields in declaration order. */
  datatype DBInfo = DBInfo(
    User: string,
    Host: string,
    Name: string,
    Port: string,
    Password: string,
    ConnectTimeout: string,
    SSLMode: string,
    MigrationDir: string)

  /** The keywords the builder always emits, in the order it emits them. */
  const KeyOrder: seq<string> := ["user", "host", "port", "dbname", "connect_timeout", "sslmode"]

  /** The seven connection keywords a record carries a value for. */
  const Keywords: set<string> := {"user", "password", "host", "port", "dbname", "connect_timeout", "sslmode"}

  /** The field of `d` that connection keyword `key` names ("" for any other key). */
  function Field(d: DBInfo, key: string): string
  {
    match key
    case "user" => d.User
    case "password" => d.Password
    case "host" => d.Host
    case "port" => d.Port
    case "dbname" => d.Name
    case "connect_timeout" => d.ConnectTimeout
    case "sslmode" => d.SSLMode
    case _ => ""
  }

  /** One `key=value` token, the value inserted verbatim. */
  function Pair(key: string, value: string): string
  {
    key + "=" + value
  }

  /** The tokens of the rendered connection string, in the order the builder emits them. */
  function ConnTokens(d: DBInfo): seq<string>
  {
    [Pair("user", d.User), Pair("host", d.Host), Pair("port", d.Port), Pair("dbname", d.Name),
     Pair("connect_timeout", d.ConnectTimeout), Pair("sslmode", d.SSLMode)]
    + (if d.Password != "" then [Pair("password", d.Password)] else [])
  }

  /** The rendered connection string. */
  function ConnString(d: DBInfo): string
  {
    Join(ConnTokens(d), ' ')
  }

  /** No connection field holds a space (the migration directory is not rendered). */
  predicate NoSpaceIn(d: DBInfo)
  {
    forall key :: key in Keywords ==> ' ' !in Field(d, key)
  }

  /** `(*DBInfo).dbStringBuilder`: six tokens, then a password token when there is a password. */
  method DBStringBuilder(d: DBInfo) returns (s: string)
    ensures s == ConnString(d)
    ensures NoSpaceIn(d) ==> Split(s, ' ') == ConnTokens(d)
  {
    var dbString: seq<string> := [];
    dbString := dbString + [Pair("user", d.User)];
    dbString := dbString + [Pair("host", d.Host)];
    dbString := dbString + [Pair("port", d.Port)];
    dbString := dbString + [Pair("dbname", d.Name)];
    dbString := dbString + [Pair("connect_timeout", d.ConnectTimeout)];
    dbString := dbString + [Pair("sslmode", d.SSLMode)];

    if d.Password != "" {
      dbString := dbString + [Pair("password", d.Password)];
    }

    assert dbString == ConnTokens(d);
    s := Join(dbString, ' ');
    if NoSpaceIn(d) {
      BuilderSplitsIntoTokens(d);
    }
  }

  /** The keyword of the `k`-th token the builder emits. */
  function TokenKey(k: nat): string
  {
    if k < |KeyOrder| then KeyOrder[k] else "password"
  }

  /** The tokens are user, host, port, dbname, connect_timeout, sslmode (then password), values verbatim. */
  lemma TokenOrder(d: DBInfo)
    ensures |ConnTokens(d)| == if d.Password == "" then 6 else 7
    ensures forall k :: 0 <= k < |ConnTokens(d)| ==> ConnTokens(d)[k] == TokenKey(k) + "=" + Field(d, TokenKey(k))
  {
  }

  /** A `password=` token is emitted iff the password is non-empty, and then only as the last token. */
  lemma PasswordTokenIffNonEmpty(d: DBInfo)
    ensures (exists i :: 0 <= i < |ConnTokens(d)| && HasPrefix(ConnTokens(d)[i], "password=")) <==> d.Password != ""
    ensures forall i :: 0 <= i < |ConnTokens(d)| && HasPrefix(ConnTokens(d)[i], "password=") ==>
              i == |ConnTokens(d)| - 1
  {
    var toks := ConnTokens(d);
    TokenOrder(d);
    forall i | 0 <= i < 6
      ensures !HasPrefix(toks[i], "password=")
    {
      var t := toks[i];
      if i == 2 {
        assert t[1] == 'o';
      } else {
        assert t[0] != 'p';
      }
    }
    if d.Password != "" {
      assert HasPrefix(toks[6], "password=");
    }
  }

  /** With no space in any field, the output splits into exactly the 6 or 7 tokens, nothing escaped. */
  lemma BuilderSplitsIntoTokens(d: DBInfo)
    requires NoSpaceIn(d)
    ensures Split(ConnString(d), ' ') == ConnTokens(d)
    ensures |Split(ConnString(d), ' ')| == if d.Password == "" then 6 else 7
  {
    var toks := ConnTokens(d);
    TokenOrder(d);
    forall k | 0 <= k < |toks|
      ensures ' ' !in toks[k]
    {
      var key := TokenKey(k);
      assert key in Keywords;
      assert ' ' !in key;
    }
    SplitJoin(toks, ' ');
  }

  /** The migration directory never influences the rendered string. */
  lemma MigrationDirIgnored(d: DBInfo, e: DBInfo)
    requires forall key :: key in Keywords ==> Field(d, key) == Field(e, key)
    ensures ConnString(d) == ConnString(e)
  {
  }

  // ---------------------------------------------------------------------
  // replaceDBName

  /** One token of `replaceDBName`: anything starting with "dbname" becomes `dbname=<name>`. */
  function RewriteToken(t: string, name: string): string
  {
    if HasPrefix(t, "dbname") then Pair("dbname", name) else t
  }

  /** The token list after the rewrite, index by index. */
  function ReplacedTokens(toks: seq<string>, name: string): seq<string>
  {
    seq(|toks|, k requires 0 <= k < |toks| => RewriteToken(toks[k], name))
  }

  /** The connection string `replaceDBName(s, name)` returns. */
  function WithDBName(s: string, name: string): string
  {
    Join(ReplacedTokens(Split(s, ' '), name), ' ')
  }

  /** `replaceDBName`: rewrite every token that starts with "dbname", keep every other one. */
  method ReplaceDBName(dbString: string, dbName: string) returns (r: string)
    ensures r == WithDBName(dbString, dbName)
  {
    var splitDBString := Split(dbString, ' ');

    var newDBString: seq<string> := [];
    for i := 0 to |splitDBString|
      invariant |newDBString| == i
      invariant forall k :: 0 <= k < i ==> newDBString[k] == RewriteToken(splitDBString[k], dbName)
    {
      var v := splitDBString[i];
      if HasPrefix(v, "dbname") {
        newDBString := newDBString + [Pair("dbname", dbName)];
        continue;
      }
      newDBString := newDBString + [v];
    }

    assert newDBString == ReplacedTokens(splitDBString, dbName);
    r := Join(newDBString, ' ');
  }

  /** With a space-free name, the rewritten string splits into the rewritten tokens. */
  lemma SplitWithDBName(s: string, name: string)
    requires ' ' !in name
    ensures Split(WithDBName(s, name), ' ') == ReplacedTokens(Split(s, ' '), name)
  {
    var toks := ReplacedTokens(Split(s, ' '), name);
    forall k | 0 <= k < |toks|
      ensures ' ' !in toks[k]
    {
      assert ' ' !in Pair("dbname", name);
    }
    SplitJoin(toks, ' ');
  }

  /** Token count is kept; a token not starting with "dbname" stays at its index, every other becomes `dbname=<name>`. */
  lemma ReplacePreservesTokens(s: string, name: string)
    requires ' ' !in name
    ensures |Split(WithDBName(s, name), ' ')| == |Split(s, ' ')|
    ensures forall k :: 0 <= k < |Split(s, ' ')| && !HasPrefix(Split(s, ' ')[k], "dbname") ==>
              Split(WithDBName(s, name), ' ')[k] == Split(s, ' ')[k]
    ensures forall k :: 0 <= k < |Split(s, ' ')| && HasPrefix(Split(s, ' ')[k], "dbname") ==>
              Split(WithDBName(s, name), ' ')[k] == "dbname=" + name
  {
    SplitWithDBName(s, name);
  }

  /** Without a token starting with "dbname", the string comes back unchanged. */
  lemma ReplaceWithoutDBNameIsIdentity(s: string, name: string)
    requires forall k :: 0 <= k < |Split(s, ' ')| ==> !HasPrefix(Split(s, ' ')[k], "dbname")
    ensures WithDBName(s, name) == s
  {
    assert ReplacedTokens(Split(s, ' '), name) == Split(s, ' ');
    JoinSplit(s, ' ');
  }

  /** Replacing twice with the same space-free name is replacing once. */
  lemma ReplaceIdempotent(s: string, name: string)
    requires ' ' !in name
    ensures WithDBName(WithDBName(s, name), name) == WithDBName(s, name)
  {
    var once := WithDBName(s, name);
    SplitWithDBName(s, name);
    var toks := Split(once, ' ');
    assert ReplacedTokens(toks, name) == toks by {
      forall k | 0 <= k < |toks|
        ensures RewriteToken(toks[k], name) == toks[k]
      {
        assert HasPrefix(Pair("dbname", name), "dbname");
      }
    }
    JoinSplit(once, ' ');
  }

  /** The rewrite touches only the builder's dbname token. */
  lemma RewriteBuilderToken(d: DBInfo, name: string, k: nat)
    requires k < |ConnTokens(d)|
    ensures |ConnTokens(d.(Name := name))| == |ConnTokens(d)|
    ensures RewriteToken(ConnTokens(d)[k], name) == ConnTokens(d.(Name := name))[k]
  {
    var toks := ConnTokens(d);
    var e := d.(Name := name);
    TokenOrder(d);
    TokenOrder(e);
    if k == 3 {
      assert HasPrefix(toks[k], "dbname");
    } else {
      assert toks[k][0] == TokenKey(k)[0] != 'd';
    }
  }

  /** Rewriting the builder's output is building with the new name. */
  lemma ReplaceBuilderRoundTrip(d: DBInfo, name: string)
    requires NoSpaceIn(d)
    requires ' ' !in name
    ensures WithDBName(ConnString(d), name) == ConnString(d.(Name := name))
  {
    BuilderSplitsIntoTokens(d);
    var toks := ConnTokens(d);
    var e := d.(Name := name);
    RewriteBuilderToken(d, name, 0);
    forall k | 0 <= k < |toks|
      ensures ReplacedTokens(toks, name)[k] == ConnTokens(e)[k]
    {
      RewriteBuilderToken(d, name, k);
    }
    assert ReplacedTokens(toks, name) == ConnTokens(e);
  }
}
