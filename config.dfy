/**
 * Configuration from the process environment (internal/config/config.go, and the
 * identical LoadConfig of main.go). The environment is a map from variable name to
 * value; a variable that is unset reads as the empty string, as with os.Getenv.
 */
module Config {

  datatype Config = Config(
    dbHost: string,
    dbPort: string,
    dbUser: string,
    dbPassword: string,
    dbName: string,
    serverPort: string,
    env: string,
    allowedOrigins: seq<string>)

  type Environment = map<string, string>

  const LocalOrigin: string := "http://localhost:3000"
  const LoopbackOrigin: string := "http://127.0.0.1:3000"
  /** The ALLOWED_ORIGINS value used when the variable is empty or unset. */
  const DefaultAllowedOrigins: string := LocalOrigin + "," + LoopbackOrigin

  function Getenv(environment: Environment, name: string): string {
    if name in environment then environment[name] else ""
  }

  function OrDefault(value: string, default: string): string {
    if value == "" then default else value
  }

  // ---------------------------------------------------------------------------
  // strings.Split with a one-character separator.

  function Count(s: string, c: char): nat {
    if |s| == 0 then 0 else (if s[0] == c then 1 else 0) + Count(s[1..], c)
  }

  /** The pieces of `s` between separators: one more than there are separators, none holding one. */
  function Split(s: string, sep: char): (parts: seq<string>)
    ensures |parts| == Count(s, sep) + 1
    ensures forall i :: 0 <= i < |parts| ==> sep !in parts[i]
    decreases |s|
  {
    if |s| == 0 then [""]
    else
      var rest := Split(s[1..], sep);
      if s[0] == sep then [""] + rest else [[s[0]] + rest[0]] + rest[1..]
  }

  function Join(parts: seq<string>, sep: char): string
    requires |parts| >= 1
  {
    if |parts| == 1 then parts[0] else parts[0] + [sep] + Join(parts[1..], sep)
  }

  /** Splitting loses nothing: joining the pieces back with the separator gives the input. */
  lemma {:induction false} JoinSplit(s: string, sep: char)
    ensures Join(Split(s, sep), sep) == s
  {
    if |s| > 0 {
      var rest := Split(s[1..], sep);
      JoinSplit(s[1..], sep);
      if s[0] == sep {
        assert Split(s, sep)[1..] == rest;
      } else if |rest| == 1 {
        assert Join(Split(s, sep), sep) == [s[0]] + rest[0];
      } else {
        var parts := Split(s, sep);
        assert parts[1..] == rest[1..];
        assert Join(rest, sep) == rest[0] + [sep] + Join(rest[1..], sep);
        assert [s[0]] + s[1..] == s;
      }
    }
  }

  lemma {:induction false} SplitWithoutSeparator(s: string, sep: char)
    requires sep !in s
    ensures Split(s, sep) == [s]
  {
    if |s| > 0 {
      SplitWithoutSeparator(s[1..], sep);
      assert [s[0]] + s[1..] == s;
    }
  }

  lemma {:induction false} SplitAtFirst(a: string, sep: char, b: string)
    requires sep !in a
    ensures Split(a + [sep] + b, sep) == [a] + Split(b, sep)
  {
    var s := a + [sep] + b;
    if |a| == 0 {
      assert s[1..] == b;
    } else {
      assert s[1..] == a[1..] + [sep] + b;
      SplitAtFirst(a[1..], sep, b);
      assert [a[0]] + a[1..] == a;
    }
  }

  // ---------------------------------------------------------------------------
  // strings.TrimSpace.

  /** Go's unicode.IsSpace: the Latin-1 spaces and the other White_Space code points. */
  predicate IsSpace(c: char) {
    var n := c as int;
    n == 0x09 || n == 0x0A || n == 0x0B || n == 0x0C || n == 0x0D || n == 0x20 ||
    n == 0x85 || n == 0xA0 || n == 0x1680 || (0x2000 <= n <= 0x200A) ||
    n == 0x2028 || n == 0x2029 || n == 0x202F || n == 0x205F || n == 0x3000
  }

  function TrimLeft(s: string): string
    decreases |s|
  {
    if |s| > 0 && IsSpace(s[0]) then TrimLeft(s[1..]) else s
  }

  function TrimRight(s: string): string
    decreases |s|
  {
    if |s| > 0 && IsSpace(s[|s| - 1]) then TrimRight(s[..|s| - 1]) else s
  }

  /** strings.TrimSpace: cut the white space at both ends. */
  function TrimSpace(s: string): string {
    TrimRight(TrimLeft(s))
  }

  /** How many white-space characters open `s`. */
  function LeadingSpaces(s: string): (n: nat)
    ensures n <= |s|
    decreases |s|
  {
    if |s| > 0 && IsSpace(s[0]) then 1 + LeadingSpaces(s[1..]) else 0
  }

  /** How many white-space characters close `s`. */
  function TrailingSpaces(s: string): (n: nat)
    ensures n <= |s|
    decreases |s|
  {
    if |s| > 0 && IsSpace(s[|s| - 1]) then 1 + TrailingSpaces(s[..|s| - 1]) else 0
  }

  lemma {:induction false} TrimLeftSlice(s: string)
    ensures TrimLeft(s) == s[LeadingSpaces(s)..]
    ensures forall k :: 0 <= k < LeadingSpaces(s) ==> IsSpace(s[k])
    ensures TrimLeft(s) != [] ==> !IsSpace(TrimLeft(s)[0])
    decreases |s|
  {
    if |s| > 0 && IsSpace(s[0]) {
      TrimLeftSlice(s[1..]);
      forall k | 0 < k < LeadingSpaces(s) ensures IsSpace(s[k]) {
        assert s[k] == s[1..][k - 1];
      }
    }
  }

  lemma {:induction false} TrimRightSlice(s: string)
    ensures TrimRight(s) == s[..|s| - TrailingSpaces(s)]
    ensures forall k :: |s| - TrailingSpaces(s) <= k < |s| ==> IsSpace(s[k])
    ensures TrimRight(s) != [] ==> !IsSpace(TrimRight(s)[|TrimRight(s)| - 1])
    decreases |s|
  {
    if |s| > 0 && IsSpace(s[|s| - 1]) {
      var t := s[..|s| - 1];
      TrimRightSlice(t);
      assert t[..|t| - TrailingSpaces(t)] == s[..|s| - TrailingSpaces(s)];
      forall k | |s| - TrailingSpaces(s) <= k < |s| - 1 ensures IsSpace(s[k]) {
        assert s[k] == t[k];
      }
    }
  }

  /**
   * TrimSpace keeps the slice of `s` between its leading and its trailing white space:
   * only spaces are cut, on either side, and what is kept neither starts nor ends with one.
   */
  lemma TrimSpaceSlice(s: string)
    ensures LeadingSpaces(s) + |TrimSpace(s)| <= |s|
    ensures TrimSpace(s) == s[LeadingSpaces(s)..LeadingSpaces(s) + |TrimSpace(s)|]
    ensures forall k :: 0 <= k < LeadingSpaces(s) ==> IsSpace(s[k])
    ensures forall k :: LeadingSpaces(s) + |TrimSpace(s)| <= k < |s| ==> IsSpace(s[k])
    ensures TrimSpace(s) != [] ==> !IsSpace(TrimSpace(s)[0]) && !IsSpace(TrimSpace(s)[|TrimSpace(s)| - 1])
  {
    var left := TrimLeft(s);
    var lead := LeadingSpaces(s);
    TrimLeftSlice(s);
    TrimRightSlice(left);
    var r := TrimSpace(s);
    assert r == left[..|left| - TrailingSpaces(left)];
    forall k | lead + |r| <= k < |s| ensures IsSpace(s[k]) {
      assert s[k] == left[k - lead];
    }
    if r != [] {
      assert r[0] == left[0];
    }
  }

  /** An origin that neither starts nor ends with white space is kept whole. */
  lemma TrimSpaceKeeps(s: string)
    requires |s| > 0 && !IsSpace(s[0]) && !IsSpace(s[|s| - 1])
    ensures TrimSpace(s) == s
  {
  }

  /** The allowed origins for a raw ALLOWED_ORIGINS value: every comma-separated piece, trimmed. */
  function AllowedOriginsOf(raw: string): (origins: seq<string>)
    ensures |origins| == Count(raw, ',') + 1
  {
    var pieces := Split(raw, ',');
    seq(|pieces|, i requires 0 <= i < |pieces| => TrimSpace(pieces[i]))
  }

  /** Two comma-free origins without surrounding spaces are read back as exactly those two. */
  lemma TwoOrigins(a: string, b: string)
    requires ',' !in a && ',' !in b
    requires |a| > 0 && !IsSpace(a[0]) && !IsSpace(a[|a| - 1])
    requires |b| > 0 && !IsSpace(b[0]) && !IsSpace(b[|b| - 1])
    ensures AllowedOriginsOf(a + [','] + b) == [a, b]
  {
    SplitAtFirst(a, ',', b);
    SplitWithoutSeparator(b, ',');
    TrimSpaceKeeps(a);
    TrimSpaceKeeps(b);
  }

  /** Unset ALLOWED_ORIGINS yields the two local development origins. */
  lemma DefaultOriginsList()
    ensures AllowedOriginsOf(DefaultAllowedOrigins) == ["http://localhost:3000", "http://127.0.0.1:3000"]
  {
    var a, b := "http://localhost:3000", "http://127.0.0.1:3000";
    assert DefaultAllowedOrigins == a + [','] + b;
    TwoOrigins(a, b);
  }

  /** Trimming never drops a piece: an empty piece stays as an empty allowed origin. */
  lemma EmptyPieceKept()
    ensures AllowedOriginsOf("a,,b") == ["a", "", "b"]
  {
    assert "a,,b" == "a" + [','] + ("" + [','] + "b");
    SplitAtFirst("a", ',', "" + [','] + "b");
    SplitAtFirst("", ',', "b");
    SplitWithoutSeparator("b", ',');
  }

  /**
   * What loading the configuration promises: defaults for the four variables that
   * have one, verbatim copies of the credentials, and the trimmed pieces of the
   * allow-list (or of its default).
   */
  predicate LoadedFrom(environment: Environment, cfg: Config) {
    && (Getenv(environment, "DB_HOST") == "" ==> cfg.dbHost == "localhost")
    && (Getenv(environment, "DB_HOST") != "" ==> cfg.dbHost == Getenv(environment, "DB_HOST"))
    && (Getenv(environment, "DB_PORT") == "" ==> cfg.dbPort == "3306")
    && (Getenv(environment, "DB_PORT") != "" ==> cfg.dbPort == Getenv(environment, "DB_PORT"))
    && cfg.dbUser == Getenv(environment, "DB_USER")
    && cfg.dbPassword == Getenv(environment, "DB_PASSWORD")
    && cfg.dbName == Getenv(environment, "DB_NAME")
    && (Getenv(environment, "SERVER_PORT") == "" ==> cfg.serverPort == "8080")
    && (Getenv(environment, "SERVER_PORT") != "" ==> cfg.serverPort == Getenv(environment, "SERVER_PORT"))
    && (Getenv(environment, "ENV") == "" ==> cfg.env == "development")
    && (Getenv(environment, "ENV") != "" ==> cfg.env == Getenv(environment, "ENV"))
    && cfg.allowedOrigins == AllowedOriginsOf(OrDefault(Getenv(environment, "ALLOWED_ORIGINS"), DefaultAllowedOrigins))
  }

  /**
   * `Load`: defaults for the four variables that have one, verbatim copies of the
   * credentials, and the allow-list split on ',' and trimmed in place piece by piece.
   */
  method Load(environment: Environment) returns (cfg: Config)
    ensures LoadedFrom(environment, cfg)
  {
    var dbHost := OrDefault(Getenv(environment, "DB_HOST"), "localhost");
    var dbPort := OrDefault(Getenv(environment, "DB_PORT"), "3306");
    var dbUser := Getenv(environment, "DB_USER");
    var dbPassword := Getenv(environment, "DB_PASSWORD");
    var dbName := Getenv(environment, "DB_NAME");
    var serverPort := OrDefault(Getenv(environment, "SERVER_PORT"), "8080");
    var env := OrDefault(Getenv(environment, "ENV"), "development");
    var raw := OrDefault(Getenv(environment, "ALLOWED_ORIGINS"), DefaultAllowedOrigins);

    var pieces := Split(raw, ',');
    var origins := new string[|pieces|](i requires 0 <= i < |pieces| => pieces[i]);
    for i := 0 to origins.Length
      invariant forall k :: 0 <= k < i ==> origins[k] == TrimSpace(pieces[k])
      invariant forall k :: i <= k < origins.Length ==> origins[k] == pieces[k]
    {
      origins[i] := TrimSpace(origins[i]);
    }
    assert origins[..] == AllowedOriginsOf(raw);
    cfg := Config(dbHost, dbPort, dbUser, dbPassword, dbName, serverPort, env, origins[..]);
  }
}
