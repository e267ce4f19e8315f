/** TLS parameters in database URLs, and the derivation of the sync URL from the async one. */
module DatabaseSettings {
  import opened Options
  import opened DatabaseUrl

  type Param = (string, string)

  /** `Blank` is a missing, empty or all-space URL. The authority is what stands between `//`
      and the path; it is absent when no `//` follows the colon. A query or fragment that is
      present but empty still has its `?` or `#` in the text. */
  datatype Url =
    | Blank
    | Url(scheme: string, authority: Option<string>, path: string, query: Option<seq<Param>>, fragment: Option<string>)

  predicate StartsTwoSlashes(path: string) {
    |path| >= 2 && path[0] == '/' && path[1] == '/'
  }

  /** Read off a text: the first colon ends the scheme, and `//` behind it starts an authority. */
  predicate WellFormed(u: Url) {
    u.Url? ==> Plain(u.scheme) && (u.authority.None? ==> !StartsTwoSlashes(u.path))
  }

  function Lower(s: string): (r: string)
    ensures |r| == |s|
  {
    seq(|s|, i requires 0 <= i < |s| =>
      if 'A' <= s[i] <= 'Z' then (s[i] as int - 'A' as int + 'a' as int) as char else s[i])
  }

  predicate Letter(c: char) {
    'a' <= c <= 'z' || 'A' <= c <= 'Z'
  }

  /** What `urlsplit` accepts as a scheme; anything else it takes for part of the path. */
  predicate IsScheme(s: string) {
    s != "" && Letter(s[0])
    && forall i :: 0 <= i < |s| ==> Letter(s[i]) || '0' <= s[i] <= '9' || s[i] == '+' || s[i] == '-' || s[i] == '.'
  }

  function LowerScheme(scheme: string): string {
    if IsScheme(scheme) then Lower(scheme) else scheme
  }

  /** Schemes for which the standard library writes `//` even before an empty authority. */
  const USES_NETLOC: set<string> :=
    { "ftp", "http", "gopher", "nntp", "telnet", "imap", "wais", "file", "mms", "https", "shttp", "snews", "prospero",
      "rtsp", "rtsps", "rtspu", "rsync", "svn", "svn+ssh", "sftp", "nfs", "git", "git+ssh", "ws", "wss" }

  /** The authority after splitting and joining: an empty one is lost together with its `//`,
      unless the path or the scheme calls for them. */
  function JoinedAuthority(scheme: string, authority: Option<string>, path: string): Option<string> {
    if !IsScheme(scheme) || (authority.Some? && authority.value != "") then authority
    else if StartsTwoSlashes(path) || (Lower(scheme) in USES_NETLOC && (path == "" || path[0] == '/')) then Some("")
    else None
  }

  const SSL_TRUE: set<string> := {"require", "required", "true", "1", "yes", "verify-ca", "verify-full"}
  const ASYNC_UNSAFE: set<string> := {"channel_binding"}

  datatype Role = Unsafe | SslMode | SslFlag | Other

  function RoleOf(p: Param): Role {
    if Lower(p.0) in ASYNC_UNSAFE then Unsafe
    else if Lower(p.0) == "sslmode" && Lower(p.1) in SSL_TRUE then SslMode
    else if Lower(p.0) == "ssl" && Lower(p.1) in SSL_TRUE then SslFlag
    else Other
  }

  predicate RequiresSsl(p: Param) {
    RoleOf(p).SslMode? || RoleOf(p).SslFlag?
  }

  /** By name, in any case: `channel_binding` always, `sslmode` and `ssl` when they ask for TLS. */
  lemma RolesByName(p: Param)
    ensures Lower(p.0) == "channel_binding" ==> RoleOf(p) == Unsafe
    ensures Lower(p.0) == "sslmode" ==> RoleOf(p) == if Lower(p.1) in SSL_TRUE then SslMode else Other
    ensures Lower(p.0) == "ssl" ==> RoleOf(p) == if Lower(p.1) in SSL_TRUE then SslFlag else Other
    ensures Lower(p.0) !in {"channel_binding", "sslmode", "ssl"} ==> RoleOf(p) == Other
    ensures Lower(p.1) == "disable" ==> !RequiresSsl(p)
  {
    assert |"channel_binding"| == 15 && |"sslmode"| == 7 && |"ssl"| == 3;
    assert "disable" !in SSL_TRUE by {
      assert "disable"[0] == 'd';
    }
  }

  /** The parameters that are no business of TLS. */
  function Others(params: seq<Param>): seq<Param> {
    if params == [] then []
    else if RoleOf(params[0]).Other? then [params[0]] + Others(params[1..])
    else Others(params[1..])
  }

  const SSLMODE_REQUIRE: Param := ("sslmode", "require")

  /** What the sync URL keeps: the asyncpg flag becomes libpq's `sslmode=require` in place. */
  function Rewritten(params: seq<Param>): (r: seq<Param>)
    ensures |r| == |params|
  {
    seq(|params|, i requires 0 <= i < |params| => if RoleOf(params[i]).SslFlag? then SSLMODE_REQUIRE else params[i])
  }

  function TrimQuestionMark(s: string): string {
    if s != "" && s[|s| - 1] == '?' then s[..|s| - 1] else s
  }

  predicate HasQuestionMark(u: Url) {
    u.Url? && (u.query.Some? || (u.fragment.Some? && '?' in u.fragment.value))
  }

  function Params(u: Url): seq<Param>
    requires u.Url?
  {
    if u.query.Some? then u.query.value else []
  }

  /** Joining drops the `#` of an empty fragment; afterwards one trailing question mark goes. */
  function JoinedFragment(fragment: Option<string>): Option<string> {
    if fragment.None? || fragment.value == "" then None else Some(TrimQuestionMark(fragment.value))
  }

  function Join(u: Url, kept: seq<Param>): Url
    requires u.Url?
  {
    Url(LowerScheme(u.scheme), JoinedAuthority(u.scheme, u.authority, u.path), u.path,
        if kept == [] then None else Some(kept), JoinedFragment(u.fragment))
  }

  /** `_extract_ssl`, as a value. */
  function Clean(u: Url, strip: bool): Url {
    if !HasQuestionMark(u) then u
    else Join(u, Kept(Params(u), strip))
  }

  predicate SslRequired(u: Url) {
    HasQuestionMark(u) && exists p :: p in Params(u) && RequiresSsl(p)
  }

  lemma {:induction false} OthersSnoc(params: seq<Param>, p: Param)
    ensures Others(params + [p]) == Others(params) + if RoleOf(p).Other? then [p] else []
  {
    if params == [] {
      assert params + [p] == [p] && [p][1..] == [];
    } else {
      OthersSnoc(params[1..], p);
      assert (params + [p])[1..] == params[1..] + [p];
    }
  }

  function Kept(params: seq<Param>, strip: bool): seq<Param> {
    if strip then Others(params) else Rewritten(params)
  }

  lemma KeptStep(params: seq<Param>, i: nat, strip: bool)
    requires i < |params|
    ensures var p := params[i];
            Kept(params[..i + 1], strip) == Kept(params[..i], strip) +
              if RoleOf(p).Other? then [p] else if strip then [] else if RoleOf(p).SslFlag? then [SSLMODE_REQUIRE] else [p]
  {
    OthersSnoc(params[..i], params[i]);
    assert params[..i + 1] == params[..i] + [params[i]];
  }

  method ExtractSsl(u: Url, strip: bool) returns (clean: Url, sslRequired: bool)
    ensures clean == Clean(u, strip) && sslRequired == SslRequired(u)
  {
    if !HasQuestionMark(u) {
      return u, false;
    }
    var params := Params(u);
    var kept: seq<Param> := [];
    sslRequired := false;
    for i := 0 to |params|
      invariant kept == Kept(params[..i], strip)
      invariant sslRequired == exists j :: 0 <= j < i && RequiresSsl(params[j])
    {
      var p := params[i];
      KeptStep(params, i, strip);
      hide Kept, Others, Rewritten;
      if Lower(p.0) in ASYNC_UNSAFE {
        if !strip { kept := kept + [p]; }
      } else if Lower(p.0) == "sslmode" && Lower(p.1) in SSL_TRUE {
        sslRequired := true;
        if !strip { kept := kept + [p]; }
      } else if Lower(p.0) == "ssl" && Lower(p.1) in SSL_TRUE {
        sslRequired := true;
        if !strip { kept := kept + [SSLMODE_REQUIRE]; }
      } else {
        kept := kept + [p];
      }
    }
    assert params[..|params|] == params;
    clean := Join(u, kept);
  }

  // ----- Laws of stripping -----

  lemma {:induction false} OthersTwice(params: seq<Param>)
    ensures Others(Others(params)) == Others(params)
  {
    if params != [] {
      OthersTwice(params[1..]);
      if RoleOf(params[0]).Other? {
        assert Others(params)[1..] == Others(params[1..]);
      }
    }
  }

  /** The rewritten flag still speaks of TLS, so stripping removes it all the same. */
  lemma RequireIsSslMode()
    ensures RoleOf(SSLMODE_REQUIRE) == SslMode
  {
    assert Lower("sslmode") == "sslmode";
    assert Lower("require") == "require";
    assert |"sslmode"| != |"channel_binding"|;
  }

  lemma {:induction false} OthersOfRewritten(params: seq<Param>)
    ensures Others(Rewritten(params)) == Others(params)
  {
    if params != [] {
      RequireIsSslMode();
      OthersOfRewritten(params[1..]);
      assert Rewritten(params)[1..] == Rewritten(params[1..]);
    }
  }

  lemma LowerTwice(scheme: string)
    ensures LowerScheme(LowerScheme(scheme)) == LowerScheme(scheme)
    ensures IsScheme(LowerScheme(scheme)) == IsScheme(scheme)
  {
  }

  /** Joining again changes nothing more than the end of the fragment. */
  lemma JoinTwice(u: Url, kept: seq<Param>, again: seq<Param>)
    requires u.Url?
    ensures var once := Join(u, again);
            once.Url? && Join(Join(u, kept), again) == once.(fragment := JoinedFragment(JoinedFragment(u.fragment)))
  {
    LowerTwice(u.scheme);
  }

  predicate EndsWithTwoQuestionMarks(u: Url) {
    u.Url? && u.fragment.Some?
    && var f := u.fragment.value; |f| >= 2 && f[|f| - 1] == '?' && f[|f| - 2] == '?'
  }

  predicate LoneQuestionMark(u: Url) {
    u.Url? && u.fragment == Some("?")
  }

  /** Trimming the fragment twice, and whether a question mark is left in it after once. */
  lemma FragmentTwice(u: Url)
    requires u.Url?
    ensures JoinedFragment(JoinedFragment(u.fragment)) == JoinedFragment(u.fragment)
       <==> !EndsWithTwoQuestionMarks(u) && !LoneQuestionMark(u)
    ensures EndsWithTwoQuestionMarks(u) ==> '?' in JoinedFragment(u.fragment).value
    ensures LoneQuestionMark(u) ==> JoinedFragment(u.fragment) == Some("")
  {
    if u.fragment.Some? && u.fragment.value != "" {
      var f := u.fragment.value;
      var t := TrimQuestionMark(f);
      assert |f| == 1 && f[0] == '?' ==> f == "?";
      if t != "" {
        assert t[|t| - 1] in t;
      }
    }
  }

  /** What a second pass does to the result of a first: nothing but to the fragment. */
  lemma CleanTwice(u: Url, kept: seq<Param>)
    requires HasQuestionMark(u) && Others(kept) == Others(Params(u))
    ensures var twice := Clean(Join(u, kept), true);
            var once := Join(u, Others(Params(u)));
            && twice.Url? && once.Url? && twice == once.(fragment := twice.fragment)
            && (twice.fragment == once.fragment <==> !(EndsWithTwoQuestionMarks(u) || (LoneQuestionMark(u) && kept != [])))
  {
    var first := Join(u, kept);
    FragmentTwice(u);
    JoinTwice(u, kept, Others(Params(u)));
    assert Params(first) == kept;
    hide Join, JoinedFragment, EndsWithTwoQuestionMarks;
    JoinParts(u, kept);
    JoinParts(u, Others(Params(u)));
  }

  lemma JoinParts(u: Url, kept: seq<Param>)
    requires u.Url?
    ensures var j := Join(u, kept);
            && j.Url? && (j.query.None? <==> kept == []) && j.fragment == JoinedFragment(u.fragment)
            && j.query == (if kept == [] then None else Some(kept))
            && forall other :: Join(u, other) == j.(query := if other == [] then None else Some(other))
  {
  }

  /** Stripping is idempotent, and stripping what the sync URL keeps is stripping the original,
      except that each pass takes one question mark off the end of a fragment, and the hash too
      when nothing else was left behind it. */
  lemma StrippingLawsExactly(u: Url)
    ensures Clean(Clean(u, true), true) == Clean(u, true)
       <==> !(EndsWithTwoQuestionMarks(u) || (LoneQuestionMark(u) && Others(Params(u)) != []))
    ensures Clean(Clean(u, false), true) == Clean(u, true)
       <==> !(EndsWithTwoQuestionMarks(u) || (LoneQuestionMark(u) && Params(u) != []))
  {
    if HasQuestionMark(u) {
      OthersTwice(Params(u));
      OthersOfRewritten(Params(u));
      CleanTwice(u, Others(Params(u)));
      CleanTwice(u, Rewritten(Params(u)));
    }
  }

  /** The sync form asks for TLS exactly when the original does. */
  lemma {:induction false} RewritingKeepsRequirement(params: seq<Param>)
    ensures (exists p :: p in Rewritten(params) && RequiresSsl(p)) <==> (exists p :: p in params && RequiresSsl(p))
  {
    RequireIsSslMode();
    if p :| p in params && RequiresSsl(p) {
      var i :| 0 <= i < |params| && params[i] == p;
      assert Rewritten(params)[i] in Rewritten(params) && RequiresSsl(Rewritten(params)[i]);
    }
    if p :| p in Rewritten(params) && RequiresSsl(p) {
      var i :| 0 <= i < |params| && Rewritten(params)[i] == p;
      assert params[i] in params && RequiresSsl(params[i]);
    }
  }

  // ----- Re-targeting split URLs -----

  const HOST := "postgres:admin@localhost:5432"
  const DEFAULT_ASYNC := Url("postgresql+asyncpg", Some(HOST), "/regintel_db", None, None)
  const DEFAULT_SYNC := Url("postgresql+psycopg2", Some(HOST), "/regintel_db", None, None)

  /** `_normalise_postgres_url`, which looks for `://`. */
  function RetargetUrl(u: Url, driver: string): Url {
    if u.Url? && u.authority.Some? then u.(scheme := Retarget(u.scheme, driver)) else u
  }

  /** The text of a URL up to its query. */
  function Head(u: Url): string
    requires u.Url?
  {
    u.scheme + (match u.authority case Some(a) => "://" + a + u.path case None => ":" + u.path)
  }

  lemma HeadSplits(scheme: string, u: Url, rest: string)
    requires u.Url?
    ensures u.authority.Some? ==> Head(u.(scheme := scheme)) + rest == scheme + "://" + (u.authority.value + u.path + rest)
    ensures u.authority.None? ==> Head(u.(scheme := scheme)) + rest == scheme + ":" + (u.path + rest)
  {
  }

  /** Re-targeting a URL is rewriting its text. */
  lemma RetargetUrlIsNormalise(u: Url, rest: string, driver: string)
    requires u.Url? && WellFormed(u) && (rest == "" || rest[0] == '?' || rest[0] == '#')
    ensures Normalise(Head(u) + rest, driver) == Head(RetargetUrl(u, driver)) + rest
  {
    hide Normalise, Retarget, Head, Plain;
    HeadSplits(u.scheme, u, rest);
    assert u.(scheme := u.scheme) == u;
    match u.authority
    case Some(a) =>
      NormaliseIsRetarget(u.scheme, a + u.path + rest, driver);
      HeadSplits(Retarget(u.scheme, driver), u, rest);
    case None =>
      NormaliseNeedsSlashes(u.scheme, u.path + rest, driver);
  }

  // ----- Lower-casing a scheme does not change how it is re-targeted -----

  lemma LowerKeepsStarts(s: string, word: string)
    ensures Starts(Lower(s), word) <==> Starts(s, word)
  {
    assert forall i :: 0 <= i < |s| ==> Fold(Lower(s)[i]) == Fold(s[i]);
  }

  lemma LowerKeepsNamed(s: string, at: nat)
    ensures Named(Lower(s), at) <==> Named(s, at)
  {
  }

  lemma LowerKeepsForm(s: string)
    ensures PostgresScheme(Lower(s)) <==> PostgresScheme(s)
    ensures SqliteScheme(Lower(s)) <==> SqliteScheme(s)
  {
    LowerKeepsStarts(s, "postgresql");
    LowerKeepsStarts(s, "postgres");
    LowerKeepsStarts(s, "sqlite");
    LowerKeepsNamed(s, 10);
    LowerKeepsNamed(s, 8);
    LowerKeepsNamed(s, 6);
  }

  predicate LowerCase(s: string) {
    forall i :: 0 <= i < |s| ==> 'a' <= s[i] <= 'z' || '0' <= s[i] <= '9' || s[i] == '+'
  }

  /** A scheme made of a dialect and a driver in lower case is accepted and left as it is. */
  lemma DialectIsFixed(dialect: string, driver: string)
    requires LowerCase(dialect) && LowerCase(driver) && |dialect| >= 7 && 'a' <= dialect[0] <= 'z' && |driver| >= 2
    ensures var d := dialect + driver;
            IsScheme(d) && Lower(d) == d && LowerScheme(d) == d && d !in USES_NETLOC
  {
    var d := dialect + driver;
    if d in USES_NETLOC {
      NetlocSchemesAreShort(d);
    }
  }

  lemma NetlocSchemesAreShort(s: string)
    requires s in USES_NETLOC
    ensures |s| <= 8
  {
  }

  /** The four schemes that re-targeting writes. */
  predicate IsDialect(s: string) {
    s == "postgresql+asyncpg" || s == "postgresql+psycopg2" || s == "sqlite+aiosqlite" || s == "sqlite+pysqlite"
  }

  lemma DialectsAreFixed(s: string)
    requires IsDialect(s)
    ensures IsScheme(s) && Lower(s) == s && LowerScheme(s) == s && s !in USES_NETLOC
  {
    LowerCaseParts();
    hide LowerCase, IsScheme, Lower, LowerScheme;
    if s[0] == 'p' {
      var driver := if s == "postgresql+asyncpg" then "asyncpg" else "psycopg2";
      assert s == "postgresql+" + driver;
      DialectIsFixed("postgresql+", driver);
    } else {
      var driver := if s == "sqlite+aiosqlite" then "aiosqlite" else "pysqlite";
      assert s == "sqlite+" + driver;
      DialectIsFixed("sqlite+", driver);
    }
  }

  lemma LowerCaseParts()
    ensures LowerCase("postgresql+") && LowerCase("sqlite+") && LowerCase("asyncpg") && LowerCase("psycopg2")
    ensures LowerCase("aiosqlite") && LowerCase("pysqlite")
  {
  }

  lemma DriverNames()
    ensures DriverName("asyncpg") && DriverName("psycopg2") && DriverName("aiosqlite")
  {
  }

  lemma RetargetForms(scheme: string)
    ensures Retarget(scheme, "asyncpg") ==
      if PostgresScheme(scheme) then "postgresql+asyncpg" else if SqliteScheme(scheme) then "sqlite+aiosqlite" else scheme
    ensures Retarget(scheme, "psycopg2") ==
      if PostgresScheme(scheme) then "postgresql+psycopg2" else if SqliteScheme(scheme) then "sqlite+pysqlite" else scheme
  {
    assert "postgresql+" + "asyncpg" == "postgresql+asyncpg" && "postgresql+" + "psycopg2" == "postgresql+psycopg2";
    assert "sqlite+" + "aiosqlite" == "sqlite+aiosqlite" && "sqlite+" + "pysqlite" == "sqlite+pysqlite";
  }

  predicate Known(scheme: string) {
    PostgresScheme(scheme) || SqliteScheme(scheme)
  }

  /** The two schemes that one URL is given. */
  lemma TwoSchemes(scheme: string)
    ensures var async := Retarget(scheme, "asyncpg");
            var sync := Retarget(async, "psycopg2");
            && async == (if PostgresScheme(scheme) then "postgresql+asyncpg" else if SqliteScheme(scheme) then "sqlite+aiosqlite" else scheme)
            && sync == (if PostgresScheme(scheme) then "postgresql+psycopg2" else if SqliteScheme(scheme) then "sqlite+pysqlite" else scheme)
            && Retarget(sync, "asyncpg") == async
  {
    DriverNames();
    RetargetTwice(scheme, "asyncpg", "psycopg2");
    RetargetTwice(scheme, "psycopg2", "asyncpg");
    RetargetForms(scheme);
  }

  lemma SchemesDiffer()
    ensures "postgresql+psycopg2" != "postgresql+asyncpg" && "sqlite+pysqlite" != "sqlite+aiosqlite"
  {
    assert |"postgresql+psycopg2"| != |"postgresql+asyncpg"|;
    assert |"sqlite+pysqlite"| != |"sqlite+aiosqlite"|;
  }

  lemma UnknownStaysUnknown(scheme: string)
    requires !Known(scheme)
    ensures Retarget(LowerScheme(scheme), "asyncpg") == LowerScheme(scheme)
  {
    LowerKeepsForm(scheme);
    hide PostgresScheme, SqliteScheme, Lower, IsScheme;
  }

  /** Going to the sync driver and back lands on the async scheme, lower-cased along the way or
      not; and the two schemes stay apart for the databases that are known. */
  lemma SchemeRoundTrip(scheme: string)
    ensures var async := Retarget(scheme, "asyncpg");
            var sync := Retarget(async, "psycopg2");
            && Retarget(sync, "asyncpg") == async
            && Retarget(LowerScheme(sync), "asyncpg") == LowerScheme(async)
            && (LowerScheme(sync) == LowerScheme(async) <==> !Known(scheme))
  {
    hide Retarget, LowerScheme, PostgresScheme, SqliteScheme;
    TwoSchemes(scheme);
    SchemesDiffer();
    if Known(scheme) {
      DialectsAreFixed(Retarget(scheme, "asyncpg"));
      DialectsAreFixed(Retarget(Retarget(scheme, "asyncpg"), "psycopg2"));
    } else {
      UnknownStaysUnknown(scheme);
    }
  }

  /** A URL with a query, an empty authority and no second pair of slashes, such as a SQLite
      file by relative path: joining drops the `//` that re-targeting looks for. */
  predicate LosesSlashes(u: Url) {
    HasQuestionMark(u) && Known(u.scheme) && u.authority == Some("") && !StartsTwoSlashes(u.path)
  }

  /** Which authority the cleaned URLs are left with. */
  lemma AuthorityOfClean(scheme: string, authority: string, path: string)
    requires Known(scheme)
    ensures var async := Retarget(scheme, "asyncpg");
            var sync := Retarget(async, "psycopg2");
            && JoinedAuthority(async, Some(authority), path) == JoinedAuthority(sync, Some(authority), path)
            && (JoinedAuthority(sync, Some(authority), path).None? <==> authority == "" && !StartsTwoSlashes(path))
  {
    hide Retarget, LowerScheme, PostgresScheme, SqliteScheme, IsScheme, Lower;
    TwoSchemes(scheme);
    DialectsAreFixed(Retarget(scheme, "asyncpg"));
    DialectsAreFixed(Retarget(Retarget(scheme, "asyncpg"), "psycopg2"));
  }

  lemma KnownIsNotNetloc(scheme: string)
    requires Known(scheme)
    ensures Lower(scheme) !in USES_NETLOC
  {
    var l := Lower(scheme);
    LowerKeepsForm(scheme);
    if Starts(l, "postgres") {
      assert Fold(l[0]) == "postgres"[0] && Fold(l[1]) == "postgres"[1];
    } else if Starts(l, "postgresql") {
      assert Fold(l[0]) == "postgresql"[0] && Fold(l[1]) == "postgresql"[1];
    } else {
      assert Fold(l[0]) == "sqlite"[0] && Fold(l[1]) == "sqlite"[1];
    }
    hide Starts, Named;
    if l in USES_NETLOC {
      NetlocInitials(l);
    }
  }

  lemma NetlocInitials(l: string)
    requires l in USES_NETLOC
    ensures |l| >= 2 && 'a' <= l[0] <= 'z' && 'a' <= l[1] <= 'z'
    ensures !(l[0] == 'p' && l[1] == 'o') && !(l[0] == 's' && l[1] == 'q')
  {
  }

  /** Fragments aside, the way back from the sync URL fails exactly when the slashes are lost. */
  lemma BackFromSync(given: Url, kept: seq<Param>)
    requires WellFormed(given) && HasQuestionMark(given)
    ensures var a := RetargetUrl(given, "asyncpg");
            var s := RetargetUrl(a, "psycopg2");
            RetargetUrl(Join(s, kept), "asyncpg") == Join(a, kept) <==> !LosesSlashes(given)
  {
    SchemeRoundTrip(given.scheme);
    if Known(given.scheme) {
      KnownIsNotNetloc(given.scheme);
      if given.authority.Some? {
        AuthorityOfClean(given.scheme, given.authority.value, given.path);
      }
    } else {
      TwoSchemes(given.scheme);
      UnknownStaysUnknown(given.scheme);
    }
    hide Retarget, LowerScheme, Known, JoinedFragment, HasQuestionMark;
  }

  /** When the sync URL is derived, stripping it and moving it back to asyncpg gives exactly the
      async URL that the settings hold, except for the fragments above and for URLs that lose
      their slashes. */
  lemma DerivedSyncMatchesAsync(given: Url)
    requires WellFormed(given)
    ensures var a := RetargetUrl(given, "asyncpg");
            var sync := Clean(RetargetUrl(a, "psycopg2"), false);
            (RetargetUrl(Clean(sync, true), "asyncpg") == Clean(a, true))
              <==> !(EndsWithTwoQuestionMarks(given) || (LoneQuestionMark(given) && Params(given) != [])
                     || LosesSlashes(given))
  {
    var a := RetargetUrl(given, "asyncpg");
    var s := RetargetUrl(a, "psycopg2");
    RetargetKeepsMarks(given, "asyncpg");
    RetargetKeepsMarks(a, "psycopg2");
    if HasQuestionMark(given) {
      hide Retarget, LowerScheme, JoinedAuthority, JoinedFragment, LosesSlashes, Others, Rewritten;
      hide EndsWithTwoQuestionMarks, LoneQuestionMark;
      var kept := Others(Params(given));
      OthersOfRewritten(Params(s));
      CleanTwice(s, Rewritten(Params(s)));
      BackFromSync(given, kept);
      assert Clean(a, true) == Join(a, kept);
    } else if given.Url? {
      SchemeRoundTrip(given.scheme);
    }
  }

  lemma RetargetKeepsMarks(u: Url, driver: string)
    ensures var r := RetargetUrl(u, driver);
            && (EndsWithTwoQuestionMarks(r) <==> EndsWithTwoQuestionMarks(u))
            && (LoneQuestionMark(r) <==> LoneQuestionMark(u)) && (HasQuestionMark(r) <==> HasQuestionMark(u))
            && (u.Url? ==> r.Url? && Params(r) == Params(u))
  {
  }

  /** A SQLite file by relative path, with a parameter: the sync URL cannot be moved back. */
  lemma RelativeSqlitePathFails()
    ensures var given := Url("sqlite", Some(""), "/./a.db", Some([("cache", "shared")]), None);
            var a := RetargetUrl(given, "asyncpg");
            var sync := Clean(RetargetUrl(a, "psycopg2"), false);
            WellFormed(given) && RetargetUrl(Clean(sync, true), "asyncpg") != Clean(a, true)
  {
    var given := Url("sqlite", Some(""), "/./a.db", Some([("cache", "shared")]), None);
    assert SqliteScheme("sqlite") && !StartsTwoSlashes(given.path);
    DerivedSyncMatchesAsync(given);
  }

  /** A fragment that is a lone question mark: the second pass drops the hash as well. */
  lemma LoneQuestionMarkFails()
    ensures var u := Url("postgresql", Some("h"), "/p", Some([("x", "1")]), Some("?"));
            Clean(Clean(u, true), true) != Clean(u, true)
  {
    var u := Url("postgresql", Some("h"), "/p", Some([("x", "1")]), Some("?"));
    assert RoleOf(("x", "1")) == Other by {
      assert |Lower("x")| == 1;
    }
    assert Others(Params(u)) == [("x", "1")];
    StrippingLawsExactly(u);
  }

  /** ... and both demand TLS under the same condition. */
  lemma DerivedSyncDemandsSame(given: Url)
    ensures var a := RetargetUrl(given, "asyncpg");
            var s := RetargetUrl(a, "psycopg2");
            && (SslRequired(a) <==> SslRequired(s))
            && (SslRequired(Clean(s, false)) <==> SslRequired(s))
  {
    var s := RetargetUrl(RetargetUrl(given, "asyncpg"), "psycopg2");
    if HasQuestionMark(s) {
      RewritingKeepsRequirement(Params(s));
    }
  }

  // ----- The settings object -----

  /** What cleaning never touches: the path, the parameters that are no business of TLS, in order,
      the scheme up to case, and any authority that is not empty. */
  ghost predicate KeepsRest(clean: Url, given: Url) {
    && clean.Url? == given.Url?
    && (given.Url? ==>
         && clean.path == given.path
         && Others(Params(clean)) == Others(Params(given))
         && Lower(clean.scheme) == Lower(given.scheme)
         && (clean.authority == given.authority || (EmptyAuthority(clean) && EmptyAuthority(given))))
  }

  predicate EmptyAuthority(u: Url) {
    u.Url? && (u.authority.None? || u.authority.value == "")
  }

  lemma CleanKeepsRest(u: Url, strip: bool)
    ensures KeepsRest(Clean(u, strip), u)
  {
    if HasQuestionMark(u) {
      OthersTwice(Params(u));
      OthersOfRewritten(Params(u));
      LowerOfLower(u.scheme);
    }
  }

  lemma LowerOfLower(s: string)
    ensures Lower(Lower(s)) == Lower(s)
  {
  }

  lemma RetargetKeepsRest(u: Url, driver: string)
    ensures u.Url? ==>
      var r := RetargetUrl(u, driver);
      r.Url? && r.authority == u.authority && r.path == u.path && r.query == u.query && r.fragment == u.fragment
  {
  }

  /** The operator gave no sync URL of their own, but an async one. */
  predicate Derives(async: Url, sync: Url) {
    (sync.Blank? || RetargetUrl(sync, "psycopg2") == DEFAULT_SYNC) && RetargetUrl(async, "asyncpg") != DEFAULT_ASYNC
  }

  /** Where the way back from a derived sync URL fails. */
  predicate CannotReturn(given: Url) {
    EndsWithTwoQuestionMarks(given) || (LoneQuestionMark(given) && Params(given) != []) || LosesSlashes(given)
  }

  class Settings {
    var databaseUrl: Url
    var databaseUrlSync: Url
    var databaseSsl: bool

    /** Field validators first, then the model validator. A sync URL that was not given is derived:
        stripped and moved back to asyncpg it is the async URL, with the exact exceptions, and it
        keeps the rest of the async URL. One that was given keeps its own rest. */
    constructor (async: Url, sync: Url, ssl: bool)
      ensures KeepsRest(databaseUrl, RetargetUrl(async, "asyncpg"))
      ensures databaseUrl.Url? ==> Params(databaseUrl) == Others(Params(async))
      ensures Derives(async, sync) && WellFormed(async) ==>
        (RetargetUrl(Clean(databaseUrlSync, true), "asyncpg") == databaseUrl <==> !CannotReturn(async))
      ensures KeepsRest(databaseUrlSync, RetargetUrl(if Derives(async, sync) then RetargetUrl(async, "asyncpg") else sync, "psycopg2"))
      ensures SslRequired(databaseUrlSync) <==> SslRequired(if Derives(async, sync) then async else sync)
      ensures databaseSsl <==> ssl || SslRequired(async) || (!Derives(async, sync) && SslRequired(sync))
    {
      databaseUrl := RetargetUrl(async, "asyncpg");
      databaseUrlSync := RetargetUrl(sync, "psycopg2");
      databaseSsl := ssl;
      new;
      DeriveSyncUrl();
      DerivedSync(async);
      GivenUrl(async);
      GivenUrl(sync);
      StrippedParams(async);
    }

    method DeriveSyncUrl()
      modifies this
      ensures databaseUrl == Clean(old(databaseUrl), true)
      ensures var missing := old(databaseUrlSync).Blank? || old(databaseUrlSync) == DEFAULT_SYNC;
              var derived := missing && old(databaseUrl) != DEFAULT_ASYNC;
              var source := if derived then RetargetUrl(old(databaseUrl), "psycopg2") else old(databaseUrlSync);
              && databaseUrlSync == Clean(source, false)
              && databaseSsl == (old(databaseSsl) || SslRequired(old(databaseUrl)) || SslRequired(source))
    {
      var syncMissing := databaseUrlSync.Blank? || databaseUrlSync == DEFAULT_SYNC;
      if syncMissing && databaseUrl != DEFAULT_ASYNC {
        databaseUrlSync := RetargetUrl(databaseUrl, "psycopg2");
      }
      var cleanAsync, asyncSsl := ExtractSsl(databaseUrl, true);
      var cleanSync, syncSsl := ExtractSsl(databaseUrlSync, false);
      databaseUrl := cleanAsync;
      databaseUrlSync := cleanSync;
      if !databaseSsl && (asyncSsl || syncSsl) {
        databaseSsl := true;
      }
    }
  }

  lemma RetargetDemandsSame(u: Url, driver: string)
    ensures SslRequired(RetargetUrl(u, driver)) <==> SslRequired(u)
    ensures RetargetUrl(u, driver).Blank? <==> u.Blank?
  {
  }

  /** Cleaning for libpq keeps the demand for TLS. */
  lemma CleanDemandsSame(u: Url)
    ensures SslRequired(Clean(u, false)) <==> SslRequired(u)
  {
    if HasQuestionMark(u) {
      RewritingKeepsRequirement(Params(u));
    }
  }

  lemma StrippedParams(u: Url)
    ensures u.Url? ==>
      var a := RetargetUrl(u, "asyncpg"); Clean(a, true).Url? && Params(Clean(a, true)) == Others(Params(u))
  {
  }

  lemma DerivedSync(async: Url)
    ensures var a := RetargetUrl(async, "asyncpg");
            var s := RetargetUrl(a, "psycopg2");
            && (SslRequired(s) <==> SslRequired(a)) && (SslRequired(Clean(s, false)) <==> SslRequired(s))
            && KeepsRest(Clean(s, false), s)
            && (WellFormed(async) ==>
                 (RetargetUrl(Clean(Clean(s, false), true), "asyncpg") == Clean(a, true) <==> !CannotReturn(async)))
  {
    hide *;
    var a := RetargetUrl(async, "asyncpg");
    var s := RetargetUrl(a, "psycopg2");
    RetargetDemandsSame(a, "psycopg2");
    CleanDemandsSame(s);
    CleanKeepsRest(s, false);
    if WellFormed(async) {
      ReturnExactly(async);
    }
  }

  lemma ReturnExactly(async: Url)
    requires WellFormed(async)
    ensures var a := RetargetUrl(async, "asyncpg");
            RetargetUrl(Clean(Clean(RetargetUrl(a, "psycopg2"), false), true), "asyncpg") == Clean(a, true) <==> !CannotReturn(async)
  {
    DerivedSyncMatchesAsync(async);
    hide Clean, RetargetUrl, EndsWithTwoQuestionMarks, LoneQuestionMark, LosesSlashes, WellFormed;
  }

  lemma GivenUrl(given: Url)
    ensures forall driver ::
      var r := RetargetUrl(given, driver);
      && (SslRequired(r) <==> SslRequired(given)) && (r.Blank? <==> given.Blank?)
      && (SslRequired(Clean(r, false)) <==> SslRequired(r))
      && KeepsRest(Clean(r, true), r) && KeepsRest(Clean(r, false), r)
  {
    hide *;
    forall driver
      ensures var r := RetargetUrl(given, driver);
        && (SslRequired(r) <==> SslRequired(given)) && (r.Blank? <==> given.Blank?)
        && (SslRequired(Clean(r, false)) <==> SslRequired(r))
        && KeepsRest(Clean(r, true), r) && KeepsRest(Clean(r, false), r)
    {
      var r := RetargetUrl(given, driver);
      RetargetDemandsSame(given, driver);
      CleanDemandsSame(r);
      CleanKeepsRest(r, true);
      CleanKeepsRest(r, false);
    }
  }
}
