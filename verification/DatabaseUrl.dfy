/**
Rewriting of database URLs: re-targeting the driver in the scheme, which is done on the text,
and moving TLS requirements out of the query, which is done on the parsed URL.

A URL is a scheme, a colon and the rest. Decoding a query is taken to be inverse to encoding
it: a query is the list of its decoded parameters, and one that is present but holds no
parameter is `Some([])`.
 */
module DatabaseUrl {
  import opened Options

  // ----- Schemes -----

  /** The lower-case letter a character stands for when case is ignored. */
  function Fold(c: char): char {
    if 'A' <= c <= 'Z' then (c as int - 'A' as int + 'a' as int) as char
    else if c == '\U{017F}' then 's'
    else if c == '\U{0130}' || c == '\U{0131}' then 'i'
    else c
  }

  predicate Starts(s: string, word: string) {
    |s| >= |word| && forall i :: 0 <= i < |word| ==> Fold(s[i]) == word[i]
  }

  predicate Delimiter(c: char) {
    c == ':' || c == '/' || c == '?' || c == '#'
  }

  predicate Plain(s: string) {
    forall i :: 0 <= i < |s| ==> !Delimiter(s[i])
  }

  predicate SeparatorAt(s: string, at: nat) {
    at + 3 <= |s| && s[at] == ':' && s[at + 1] == '/' && s[at + 2] == '/'
  }

  /** End of the run of characters allowed in a driver name. */
  function RunEnd(s: string, at: nat): (end: nat)
    requires at <= |s|
    ensures at <= end <= |s|
    ensures forall i :: at <= i < end ==> !Delimiter(s[i])
    ensures end < |s| ==> Delimiter(s[end])
    decreases |s| - at
  {
    if at == |s| || Delimiter(s[at]) then at else RunEnd(s, at + 1)
  }

  /** The optional `+driver` and the separator; the position after them. */
  function MatchTail(s: string, at: nat): Option<nat>
    requires at <= |s|
  {
    if SeparatorAt(s, at) then Some(at + 3)
    else if at < |s| && s[at] == '+' then
      var end := RunEnd(s, at + 1);
      if end > at + 1 && SeparatorAt(s, end) then Some(end + 3) else None
    else None
  }

  function MatchPostgres(s: string): Option<nat> {
    if Starts(s, "postgresql") then MatchTail(s, 10)
    else if Starts(s, "postgres") then MatchTail(s, 8)
    else None
  }

  function MatchSqlite(s: string): Option<nat> {
    if Starts(s, "sqlite") then MatchTail(s, 6) else None
  }

  const SQLITE_DRIVERS: map<string, string> := map["asyncpg" := "aiosqlite", "psycopg2" := "pysqlite"]

  function Normalise(url: string, driver: string): string {
    match MatchPostgres(url)
    case Some(end) =>
      MatchShape(url);
      "postgresql+" + driver + "://" + url[end..]
    case None =>
      match MatchSqlite(url)
      case Some(end) =>
        MatchShape(url);
        if driver in SQLITE_DRIVERS then "sqlite+" + SQLITE_DRIVERS[driver] + "://" + url[end..] else url
      case None => url
  }

  lemma TailShape(s: string, at: nat)
    requires at <= |s| && MatchTail(s, at).Some? && forall i :: 0 <= i < at ==> !Delimiter(s[i])
    ensures var end := MatchTail(s, at).value;
            at + 3 <= end <= |s| && s == s[..end - 3] + "://" + s[end..] && Plain(s[..end - 3])
  {
    var end := MatchTail(s, at).value;
    assert SeparatorAt(s, end - 3);
    assert s[end - 3..end] == "://";
  }

  /** The text is a scheme without delimiters and a separator, up to `end`. */
  predicate SchemeEnds(url: string, end: nat) {
    3 <= end <= |url| && url == url[..end - 3] + "://" + url[end..] && Plain(url[..end - 3])
  }

  /** A match consumes a scheme without delimiters and the separator. */
  lemma MatchShape(url: string)
    ensures MatchPostgres(url).Some? ==> SchemeEnds(url, MatchPostgres(url).value)
    ensures MatchSqlite(url).Some? ==> SchemeEnds(url, MatchSqlite(url).value)
  {
    WordShape(url, "postgresql");
    WordShape(url, "postgres");
    WordShape(url, "sqlite");
    hide SchemeEnds, MatchTail, Starts;
  }

  lemma WordShape(url: string, word: string)
    requires forall i :: 0 <= i < |word| ==> 'a' <= word[i] <= 'z'
    ensures Starts(url, word) && MatchTail(url, |word|).Some? ==> SchemeEnds(url, MatchTail(url, |word|).value)
  {
    if Starts(url, word) && MatchTail(url, |word|).Some? {
      StartIsPlain(url, word);
      TailShape(url, |word|);
    }
  }

  lemma StartIsPlain(s: string, word: string)
    requires Starts(s, word) && forall i :: 0 <= i < |word| ==> 'a' <= word[i] <= 'z'
    ensures forall i :: 0 <= i < |word| ==> !Delimiter(s[i])
  {
    forall i | 0 <= i < |word| ensures !Delimiter(s[i]) {
      assert Fold(s[i]) == word[i];
    }
  }

  // ----- Re-targeting a scheme that is already split off -----

  /** The scheme is the name alone, or the name, a plus sign and something. */
  predicate Named(scheme: string, at: nat) {
    at == |scheme| || (at + 1 < |scheme| && scheme[at] == '+')
  }

  predicate PostgresScheme(scheme: string) {
    if Starts(scheme, "postgresql") then Named(scheme, 10)
    else Starts(scheme, "postgres") && Named(scheme, 8)
  }

  predicate SqliteScheme(scheme: string) {
    Starts(scheme, "sqlite") && Named(scheme, 6)
  }

  function Retarget(scheme: string, driver: string): string {
    if PostgresScheme(scheme) then "postgresql+" + driver
    else if SqliteScheme(scheme) && driver in SQLITE_DRIVERS then "sqlite+" + SQLITE_DRIVERS[driver]
    else scheme
  }

  lemma StartsInScheme(scheme: string, rest: string, word: string)
    requires forall i :: 0 <= i < |word| ==> 'a' <= word[i] <= 'z'
    ensures Starts(scheme + "://" + rest, word) <==> Starts(scheme, word)
  {
    var s := scheme + "://" + rest;
    assert |scheme| < |word| ==> s[|scheme|] == ':' && Fold(s[|scheme|]) == ':';
    assert forall i :: 0 <= i < |scheme| ==> s[i] == scheme[i];
  }

  lemma TailInScheme(scheme: string, rest: string, at: nat)
    requires Plain(scheme) && at <= |scheme|
    ensures MatchTail(scheme + "://" + rest, at) == if Named(scheme, at) then Some(|scheme| + 3) else None
  {
    var s := scheme + "://" + rest;
    assert forall i :: 0 <= i < |scheme| ==> s[i] == scheme[i];
    assert SeparatorAt(s, |scheme|);
    if at < |scheme| {
      assert !SeparatorAt(s, at);
      RunStops(s, at + 1, |scheme|);
    }
  }

  lemma RunStops(s: string, at: nat, end: nat)
    requires at <= end < |s| && Delimiter(s[end]) && forall i :: at <= i < end ==> !Delimiter(s[i])
    ensures RunEnd(s, at) == end
  {
  }

  /** Rewriting the text rewrites the scheme and preserves everything after it. */
  lemma NormaliseIsRetarget(scheme: string, rest: string, driver: string)
    requires Plain(scheme)
    ensures Normalise(scheme + "://" + rest, driver) == Retarget(scheme, driver) + "://" + rest
  {
    var s := scheme + "://" + rest;
    StartsInScheme(scheme, rest, "postgresql");
    StartsInScheme(scheme, rest, "postgres");
    StartsInScheme(scheme, rest, "sqlite");
    if Starts(scheme, "postgresql") {
      TailInScheme(scheme, rest, 10);
    } else if Starts(scheme, "postgres") {
      TailInScheme(scheme, rest, 8);
    }
    if Starts(scheme, "sqlite") {
      TailInScheme(scheme, rest, 6);
    }
    assert s[|scheme| + 3..] == rest;
  }

  /** Without `://` right after the scheme nothing is rewritten. */
  lemma NormaliseNeedsSlashes(scheme: string, rest: string, driver: string)
    requires Plain(scheme) && !(|rest| >= 2 && rest[0] == '/' && rest[1] == '/')
    ensures Normalise(scheme + ":" + rest, driver) == scheme + ":" + rest
  {
    var s := scheme + ":" + rest;
    NoTail(scheme, rest, 10);
    NoTail(scheme, rest, 8);
    NoTail(scheme, rest, 6);
    StartFits(scheme, rest, "postgresql");
    StartFits(scheme, rest, "postgres");
    StartFits(scheme, rest, "sqlite");
  }

  lemma StartFits(scheme: string, rest: string, word: string)
    requires forall i :: 0 <= i < |word| ==> 'a' <= word[i] <= 'z'
    ensures Starts(scheme + ":" + rest, word) ==> |word| <= |scheme|
  {
    var s := scheme + ":" + rest;
    assert |scheme| < |word| ==> s[|scheme|] == ':' && Fold(s[|scheme|]) == ':';
  }

  lemma NoTail(scheme: string, rest: string, at: nat)
    requires Plain(scheme) && !(|rest| >= 2 && rest[0] == '/' && rest[1] == '/')
    ensures at <= |scheme| ==> MatchTail(scheme + ":" + rest, at) == None
  {
    var s := scheme + ":" + rest;
    assert forall i :: 0 <= i < |scheme| ==> s[i] == scheme[i];
    assert !SeparatorAt(s, |scheme|) by {
      assert |rest| >= 2 ==> s[|scheme| + 1] == rest[0] && s[|scheme| + 2] == rest[1];
    }
    if at < |scheme| {
      assert !SeparatorAt(s, at);
      RunStops(s, at + 1, |scheme|);
    }
  }

  /** A driver name the scheme pattern accepts. */
  predicate DriverName(driver: string) {
    driver != "" && Plain(driver)
  }

  lemma PostgresForm(driver: string)
    requires DriverName(driver)
    ensures PostgresScheme("postgresql+" + driver) && Plain("postgresql+" + driver)
  {
    var s := "postgresql+" + driver;
    assert s[..10] == "postgresql";
    assert forall i :: 0 <= i < 10 ==> s[i] == "postgresql"[i];
    assert s[10] == '+';
    assert forall i :: 11 <= i < |s| ==> s[i] == driver[i - 11];
  }

  lemma SqliteForm(driver: string)
    requires DriverName(driver)
    ensures SqliteScheme("sqlite+" + driver) && !PostgresScheme("sqlite+" + driver) && Plain("sqlite+" + driver)
  {
    var s := "sqlite+" + driver;
    assert s[..6] == "sqlite";
    assert forall i :: 0 <= i < 6 ==> s[i] == "sqlite"[i];
    assert s[6] == '+' && s[0] == 's' && Fold(s[0]) == 's';
    assert "postgres"[0] == 'p' && "postgresql"[0] == 'p';
    assert forall i :: 7 <= i < |s| ==> s[i] == driver[i - 7];
  }

  lemma SqliteDriversAreNames(driver: string)
    requires driver in SQLITE_DRIVERS
    ensures DriverName(SQLITE_DRIVERS[driver])
  {
  }

  /** What is written for the schemes that are known, whatever follows: with any driver or none
      before, Postgres under either name gets the driver, and SQLite the driver's counterpart. */
  lemma NormaliseForms(was: string, rest: string, driver: string)
    requires DriverName(was)
    ensures Normalise("postgres" + "://" + rest, driver) == "postgresql+" + driver + "://" + rest
    ensures Normalise("postgresql" + "://" + rest, driver) == "postgresql+" + driver + "://" + rest
    ensures Normalise("postgresql+" + was + "://" + rest, driver) == "postgresql+" + driver + "://" + rest
    ensures Normalise("sqlite" + "://" + rest, "asyncpg") == "sqlite+" + "aiosqlite" + "://" + rest
    ensures Normalise("sqlite" + "://" + rest, "psycopg2") == "sqlite+" + "pysqlite" + "://" + rest
    ensures Normalise("sqlite+" + was + "://" + rest, "asyncpg") == "sqlite+" + "aiosqlite" + "://" + rest
  {
    PostgresForm(was);
    SqliteForm(was);
    BareForms();
    NormaliseIsRetarget("postgres", rest, driver);
    NormaliseIsRetarget("postgresql", rest, driver);
    NormaliseIsRetarget("postgresql+" + was, rest, driver);
    NormaliseIsRetarget("sqlite", rest, "asyncpg");
    NormaliseIsRetarget("sqlite", rest, "psycopg2");
    NormaliseIsRetarget("sqlite+" + was, rest, "asyncpg");
    hide Normalise, PostgresScheme, SqliteScheme, Plain;
  }

  lemma BareForms()
    ensures PostgresScheme("postgres") && PostgresScheme("postgresql")
    ensures SqliteScheme("sqlite") && !PostgresScheme("sqlite")
    ensures Plain("postgres") && Plain("postgresql") && Plain("sqlite")
  {
    assert Fold("sqlite"[0]) != "postgres"[0];
    assert |"postgres"| < |"postgresql"|;
  }

  /** Every other scheme is left alone. */
  lemma OtherSchemesStay(scheme: string, rest: string, driver: string)
    requires Plain(scheme) && (scheme == "" || (Fold(scheme[0]) != 'p' && Fold(scheme[0]) != 's'))
    ensures Normalise(scheme + "://" + rest, driver) == scheme + "://" + rest
  {
    NormaliseIsRetarget(scheme, rest, driver);
    assert "postgres"[0] == 'p' && "postgresql"[0] == 'p' && "sqlite"[0] == 's';
  }

  /** Re-targeting twice, on a scheme. */
  lemma RetargetTwice(scheme: string, a: string, b: string)
    requires DriverName(a)
    ensures Retarget(Retarget(scheme, a), b) ==
      if !PostgresScheme(scheme) && SqliteScheme(scheme) && a in SQLITE_DRIVERS && b !in SQLITE_DRIVERS
      then Retarget(scheme, a) else Retarget(scheme, b)
  {
    if PostgresScheme(scheme) {
      PostgresForm(a);
    } else if SqliteScheme(scheme) && a in SQLITE_DRIVERS {
      SqliteDriversAreNames(a);
      SqliteForm(SQLITE_DRIVERS[a]);
    }
  }

  lemma RetargetIsPlain(scheme: string, driver: string)
    requires Plain(scheme) && DriverName(driver)
    ensures Plain(Retarget(scheme, driver))
  {
    if PostgresScheme(scheme) {
      PostgresForm(driver);
    } else if SqliteScheme(scheme) && driver in SQLITE_DRIVERS {
      SqliteDriversAreNames(driver);
      SqliteForm(SQLITE_DRIVERS[driver]);
    }
  }

  /** The URL names a SQLite database, as far as the rewriting is concerned. */
  predicate IsSqliteUrl(url: string) {
    MatchPostgres(url).None? && MatchSqlite(url).Some?
  }

  /** The URL starts with the SQLite scheme that the driver stands for, letter by letter. */
  predicate SpellsDriver(url: string, driver: string)
    requires driver in SQLITE_DRIVERS
  {
    "sqlite+" + SQLITE_DRIVERS[driver] + "://" <= url
  }

  lemma SqliteRewriteIsIdle(url: string, driver: string)
    requires IsSqliteUrl(url) && driver in SQLITE_DRIVERS
    ensures Normalise(url, driver) == url <==> SpellsDriver(url, driver)
  {
    MatchShape(url);
    var end := MatchSqlite(url).value;
    var name := "sqlite+" + SQLITE_DRIVERS[driver];
    if SpellsDriver(url, driver) {
      SqliteDriversAreNames(driver);
      SqliteForm(SQLITE_DRIVERS[driver]);
      var rest := url[|name| + 3..];
      assert url == name + "://" + rest;
      NormaliseIsRetarget(name, rest, driver);
    }
    assert Normalise(url, driver) == name + "://" + url[end..];
  }

  /** The last driver wins, on every URL text, except exactly that a SQLite URL moved to another
      known driver cannot be moved on to an unknown one. */
  lemma LastDriverWinsExactly(url: string, a: string, b: string)
    requires DriverName(a)
    ensures Normalise(Normalise(url, a), b) == Normalise(url, b)
       <==> !(IsSqliteUrl(url) && a in SQLITE_DRIVERS && b !in SQLITE_DRIVERS && !SpellsDriver(url, a))
  {
    MatchShape(url);
    if IsSqliteUrl(url) && a in SQLITE_DRIVERS {
      SqliteRewriteIsIdle(url, a);
    }
    if MatchPostgres(url).Some? || MatchSqlite(url).Some? {
      var end := if MatchPostgres(url).Some? then MatchPostgres(url).value else MatchSqlite(url).value;
      RewriteTwice(url, end, a, b);
    }
  }

  /** Two rewrites of a URL whose scheme ends where a match says. */
  lemma RewriteTwice(url: string, end: nat, a: string, b: string)
    requires DriverName(a) && SchemeEnds(url, end)
    ensures Normalise(Normalise(url, a), b) ==
      if !PostgresScheme(url[..end - 3]) && SqliteScheme(url[..end - 3]) && a in SQLITE_DRIVERS && b !in SQLITE_DRIVERS
      then Normalise(url, a) else Normalise(url, b)
    ensures MatchPostgres(url).Some? <==> PostgresScheme(url[..end - 3])
    ensures MatchSqlite(url).Some? <==> SqliteScheme(url[..end - 3])
  {
    var scheme, rest := url[..end - 3], url[end..];
    SchemeOfMatch(scheme, rest);
    NormaliseIsRetarget(scheme, rest, a);
    NormaliseIsRetarget(scheme, rest, b);
    RetargetIsPlain(scheme, a);
    NormaliseIsRetarget(Retarget(scheme, a), rest, b);
    RetargetTwice(scheme, a, b);
    hide Retarget, PostgresScheme, SqliteScheme, Normalise, MatchPostgres, MatchSqlite;
  }

  lemma SchemeOfMatch(scheme: string, rest: string)
    requires Plain(scheme)
    ensures MatchPostgres(scheme + "://" + rest).Some? <==> PostgresScheme(scheme)
    ensures MatchSqlite(scheme + "://" + rest).Some? <==> SqliteScheme(scheme)
  {
    StartsInScheme(scheme, rest, "postgresql");
    StartsInScheme(scheme, rest, "postgres");
    StartsInScheme(scheme, rest, "sqlite");
    if Starts(scheme, "postgresql") {
      TailInScheme(scheme, rest, 10);
    } else if Starts(scheme, "postgres") {
      TailInScheme(scheme, rest, 8);
    }
    if Starts(scheme, "sqlite") {
      TailInScheme(scheme, rest, 6);
    }
  }
}
