/**
 * The configuration: value parsers (`parse_time`, `parse_bool`,
 * `parse_feed_args`), the defaults `reset` installs, the directive
 * dispatcher `load_line`, the grouping of indented argument lines under
 * their directive, and the config-file rewrite `ChangeFeedEditor.edit`.
 */
module Config {
  import opened Wrappers
  import opened Text

  // ---------------------------------------------------------------------
  // Errors

  /** `ConfigError` with the message it would carry; `BadValue` stands for
    * the `ValueError` a value parser raises. */
  datatype ConfigError =
    | BadFeedArgument(p: string)
    | BadArgumentLine(p: string)
    | BadValue
    | BadLine(line: string)
    | UnknownCommand(cmd: string)
    | BadArgumentLines(line: string)
    | FirstLineIsArgument

  // ---------------------------------------------------------------------
  // parse_time

  predicate IsUnit(u: char) {
    u == 's' || u == 'm' || u == 'h' || u == 'd' || u == 'w'
  }

  /** The unit table: seconds, minutes, hours, days and weeks. */
  function UnitSize(u: char): (n: nat)
    requires IsUnit(u)
  {
    if u == 's' then 1
    else if u == 'm' then 60
    else if u == 'h' then 3600
    else if u == 'd' then 86400
    else 604800
  }

  /** Whether the last character of `value` is one of the unit letters. */
  predicate HasUnit(value: string) {
    value != [] && IsUnit(value[|value| - 1])
  }

  /**
   * `parse_time(value, default)`: a whole number followed by an optional
   * unit (s, m, h, d or w) as seconds; without a unit the number counts in
   * `default` units. `None` where `int` raises `ValueError`. Every unit is
   * one letter, so the first suffix of the table that matches is the one
   * the last character names.
   */
  function ParseTime(value: string, default: char := 'm'): Option<int>
    requires IsUnit(default)
  {
    var (digits, size) := if HasUnit(value) then (value[..|value| - 1], UnitSize(value[|value| - 1]))
                          else (value, UnitSize(default));
    match ParseInt(digits)
    case Some(n) => Some(n * size)
    case None => None
  }

  /** `parse_time` reads a number with a unit as that many units in seconds. */
  lemma ParseTimeWithUnit(n: int, u: char, default: char)
    requires IsUnit(u) && IsUnit(default)
    ensures ParseTime(IntToString(n) + [u], default) == Some(n * UnitSize(u))
  {
    var v := IntToString(n) + [u];
    assert v[..|v| - 1] == IntToString(n);
    ParseIntOfIntToString(n);
  }

  /** A bare number counts in the default unit: minutes unless the caller says otherwise. */
  lemma ParseTimeBare(n: int, default: char)
    requires IsUnit(default)
    ensures ParseTime(IntToString(n), default) == Some(n * UnitSize(default))
  {
    var v := IntToString(n);
    assert !HasUnit(v) by { IntToStringEndsWithDigit(n); }
    assert ParseInt(v) == Some(n) by { ParseIntOfIntToString(n); }
  }

  /** Text that is not a whole number (before the unit, if any) is rejected. */
  lemma ParseTimeRejects(number: string, u: char, default: char)
    requires IsUnit(u) && IsUnit(default) && ParseInt(number).None?
    ensures ParseTime(number + [u], default).None?
    ensures !HasUnit(number) ==> ParseTime(number, default).None?
  {
    var v := number + [u];
    assert HasUnit(v) && v[..|v| - 1] == number;
    assert ParseTime(v, default) == None;
  }

  // ---------------------------------------------------------------------
  // parse_bool

  /** `parse_bool`: `0`/`false` and `1`/`true`, ignoring case and surrounding whitespace. */
  function ParseBool(value: string): (r: Option<bool>)
    ensures r == Some(false) <==> Lower(Strip(value)) in {"0", "false"}
    ensures r == Some(true) <==> Lower(Strip(value)) in {"1", "true"}
    ensures r.None? <==> Lower(Strip(value)) !in {"0", "false", "1", "true"}
  {
    var v := Lower(Strip(value));
    if v == "0" || v == "false" then Some(false)
    else if v == "1" || v == "true" then Some(true)
    else None
  }

  // ---------------------------------------------------------------------
  // parse_feed_args

  /** A feed argument after conversion: most stay strings. */
  datatype ArgValue = Str(s: string) | Flag(b: bool) | Num(n: int)

  type Args = map<string, ArgValue>

  /** A `name=value` parameter split at its first `=`. */
  function ArgParam(p: string): (r: Option<(string, string)>)
    ensures r.Some? <==> '=' in p
    ensures r.Some? ==> p == r.value.0 + "=" + r.value.1 && '=' !in r.value.0
  {
    var sp := SplitOnce(p, '=');
    if |sp| == 2 then Some((sp[0], sp[1])) else None
  }

  /** An argument line split into its name and value. */
  function ArgLine(p: string): Option<(string, string)> {
    var sp := SplitWsOnce(p);
    if |sp| == 2 then Some((sp[0], sp[1])) else None
  }

  /** Each item split into a name and a value in order, or the first item that does not split. */
  function Pairs(items: seq<string>, split: string -> Option<(string, string)>): (r: Result<seq<(string, string)>, string>)
    ensures r.Success? ==> |r.value| == |items|
    decreases |items|
  {
    if items == [] then Success([])
    else
      var last := items[|items| - 1];
      match Pairs(items[..|items| - 1], split)
      case Failure(e) => Failure(e)
      case Success(init) =>
        match split(last)
        case None => Failure(last)
        case Some(pair) => Success(init + [pair])
  }

  /** The dictionary the pairs build when each is stored in turn. */
  function Overlay(pairs: seq<(string, string)>): (m: map<string, string>)
    ensures forall k :: k in m <==> exists i :: 0 <= i < |pairs| && pairs[i].0 == k
    decreases |pairs|
  {
    if pairs == [] then map[]
    else
      var last := pairs[|pairs| - 1];
      var m := Overlay(pairs[..|pairs| - 1])[last.0 := last.1];
      assert forall k :: k in m ==> exists i :: 0 <= i < |pairs| && pairs[i].0 == k by {
        forall k | k in m ensures exists i :: 0 <= i < |pairs| && pairs[i].0 == k {
          if k != last.0 {
            var i :| 0 <= i < |pairs| - 1 && pairs[..|pairs| - 1][i].0 == k;
            assert pairs[i].0 == k;
          }
        }
      }
      assert forall k :: (exists i :: 0 <= i < |pairs| && pairs[i].0 == k) ==> k in m by {
        forall k | exists i :: 0 <= i < |pairs| && pairs[i].0 == k ensures k in m {
          var i :| 0 <= i < |pairs| && pairs[i].0 == k;
          if i < |pairs| - 1 { assert pairs[..|pairs| - 1][i].0 == k; }
        }
      }
      m
  }

  /** Later settings win: a name maps to the value of its last pair. */
  lemma {:induction false} OverlayLastWins(pairs: seq<(string, string)>, i: nat)
    requires i < |pairs|
    requires forall j :: i < j < |pairs| ==> pairs[j].0 != pairs[i].0
    ensures Overlay(pairs)[pairs[i].0] == pairs[i].1
    decreases |pairs|
  {
    if i < |pairs| - 1 {
      var init := pairs[..|pairs| - 1];
      assert init[i] == pairs[i];
      forall j | i < j < |init| ensures init[j].0 != init[i].0 {
        assert init[j] == pairs[j];
      }
      OverlayLastWins(init, i);
    }
  }

  /** The conversion `parse_feed_args` applies to the three typed arguments. */
  function ConvertArg(name: string, value: string): (r: Option<ArgValue>)
    ensures name == "allowduplicates" ==> (r.Some? <==> ParseBool(value).Some?) && (r.Some? ==> r.value == Flag(ParseBool(value).value))
    ensures name == "keepmin" ==> (r.Some? <==> ParseInt(value).Some?) && (r.Some? ==> r.value == Num(ParseInt(value).value))
    ensures name == "maxage" ==> (r.Some? <==> ParseTime(value).Some?) && (r.Some? ==> r.value == Num(ParseTime(value).value))
    ensures name !in {"allowduplicates", "keepmin", "maxage"} ==> r == Some(Str(value))
  {
    if name == "allowduplicates" then
      match ParseBool(value)
      case Some(b) => Some(Flag(b))
      case None => None
    else if name == "keepmin" then
      match ParseInt(value)
      case Some(n) => Some(Num(n))
      case None => None
    else if name == "maxage" then
      match ParseTime(value)
      case Some(n) => Some(Num(n))
      case None => None
    else Some(Str(value))
  }

  /** Every value converted by `conv`, or `BadValue` when one of them cannot be. */
  function ConvertArgs(raw: map<string, string>, conv: (string, string) -> Option<ArgValue>): (r: Result<Args, ConfigError>)
    ensures r.Failure? <==> exists k :: k in raw && conv(k, raw[k]).None?
    ensures r.Failure? ==> r.error == BadValue
    ensures r.Success? ==> r.value.Keys == raw.Keys && forall k :: k in raw ==> Some(r.value[k]) == conv(k, raw[k])
  {
    if exists k :: k in raw && conv(k, raw[k]).None? then Failure(BadValue)
    else Success(map k | k in raw :: conv(k, raw[k]).value)
  }

  /** What `parse_feed_args(argparams, arglines)` returns. */
  function FeedArgs(argparams: seq<string>, arglines: seq<string>): Result<Args, ConfigError> {
    match Pairs(argparams, ArgParam)
    case Failure(p) => Failure(BadFeedArgument(p))
    case Success(p1) =>
      match Pairs(arglines, ArgLine)
      case Failure(p) => Failure(BadArgumentLine(p))
      case Success(p2) => ConvertArgs(Overlay(p1 + p2), ConvertArg)
  }

  /** `parse_feed_args`: fills the dictionary in order, then converts the typed arguments. */
  method ParseFeedArgs(argparams: seq<string>, arglines: seq<string>) returns (r: Result<Args, ConfigError>)
    ensures r == FeedArgs(argparams, arglines)
  {
    var fromParams := AddPairs(argparams, ArgParam, [], map[]);
    if fromParams.Failure? {
      return Failure(BadFeedArgument(fromParams.error));
    }
    ghost var p1 := Pairs(argparams, ArgParam).value;
    assert [] + p1 == p1;
    var fromLines := AddPairs(arglines, ArgLine, p1, fromParams.value);
    if fromLines.Failure? {
      return Failure(BadArgumentLine(fromLines.error));
    }
    r := ConvertAll(fromLines.value, ConvertArg);
  }

  /** Stores the pairs the items split into, in order, over the dictionary built from `before`. */
  method AddPairs(items: seq<string>, split: string -> Option<(string, string)>,
                  ghost before: seq<(string, string)>, start: map<string, string>)
    returns (r: Result<map<string, string>, string>)
    requires start == Overlay(before)
    ensures r.Failure? <==> Pairs(items, split).Failure?
    ensures r.Failure? ==> r.error == Pairs(items, split).error
    ensures r.Success? ==> r.value == Overlay(before + Pairs(items, split).value)
  {
    var raw := start;
    ghost var pairs: seq<(string, string)> := [];
    assert before + pairs == before;
    var i := 0;
    while i < |items|
      invariant 0 <= i <= |items|
      invariant Pairs(items[..i], split) == Success(pairs)
      invariant raw == Overlay(before + pairs)
    {
      var p := items[i];
      var pr := split(p);
      if pr.None? {
        PairsFirstBad(items, split, i);
        return Failure(p);
      }
      assert items[..i + 1][..i] == items[..i];
      raw := raw[pr.value.0 := pr.value.1];
      assert before + (pairs + [pr.value]) == (before + pairs) + [pr.value];
      pairs := pairs + [pr.value];
      i := i + 1;
    }
    assert items[..i] == items;
    r := Success(raw);
  }

  /** Converts every typed argument; any value that does not convert fails the whole feed. */
  method ConvertAll(raw: map<string, string>, conv: (string, string) -> Option<ArgValue>) returns (r: Result<Args, ConfigError>)
    ensures r == ConvertArgs(raw, conv)
  {
    var args: Args := map k | k in raw :: Str(raw[k]);
    var todo := raw.Keys;
    while todo != {}
      invariant todo <= raw.Keys && args.Keys == raw.Keys
      invariant forall k :: k in raw && k !in todo ==> Some(args[k]) == conv(k, raw[k])
      decreases todo
    {
      var name :| name in todo;
      var converted := conv(name, raw[name]);
      if converted.None? {
        assert name in raw && conv(name, raw[name]).None?;
        return Failure(BadValue);
      }
      args := args[name := converted.value];
      todo := todo - {name};
    }
    assert forall k :: k in raw ==> conv(k, raw[k]).Some?;
    assert args == ConvertArgs(raw, conv).value;
    r := Success(args);
  }

  /** The first item that does not split is the one reported. */
  lemma {:induction false} PairsFirstBad(items: seq<string>, split: string -> Option<(string, string)>, i: nat)
    requires i < |items| && Pairs(items[..i], split).Success? && split(items[i]).None?
    ensures Pairs(items, split) == Failure(items[i])
    decreases |items|
  {
    if |items| == i + 1 {
      assert items[..|items| - 1] == items[..i];
    } else {
      assert items[..|items| - 1][..i] == items[..i];
      PairsFirstBad(items[..|items| - 1], split, i);
    }
  }

  /** Success exactly when every item splits; the pairs are the items' splits. */
  lemma {:induction false} PairsSucceed(items: seq<string>, split: string -> Option<(string, string)>)
    ensures Pairs(items, split).Success? <==> forall i :: 0 <= i < |items| ==> split(items[i]).Some?
    ensures Pairs(items, split).Success? ==> forall i :: 0 <= i < |items| ==> Some(Pairs(items, split).value[i]) == split(items[i])
    decreases |items|
  {
    if items != [] {
      var init := items[..|items| - 1];
      PairsSucceed(init, split);
      assert forall i :: 0 <= i < |init| ==> init[i] == items[i];
    }
  }

  /** An argument without `=` is rejected, whatever follows. */
  lemma BadParamRejected(argparams: seq<string>, arglines: seq<string>, i: nat)
    requires i < |argparams| && '=' !in argparams[i]
    ensures FeedArgs(argparams, arglines).Failure?
  {
    PairsSucceed(argparams, ArgParam);
  }

  /** An argument line without a value is rejected. */
  lemma BadArgLineRejected(argparams: seq<string>, arglines: seq<string>, i: nat)
    requires i < |arglines| && ArgLine(arglines[i]).None?
    ensures FeedArgs(argparams, arglines).Failure?
  {
    PairsSucceed(arglines, ArgLine);
  }

  /** The argument lines come after the parameters, so a name set by both
    * takes the argument line's value; among lines the last one wins. */
  lemma ArgLineOverridesParam(argparams: seq<string>, arglines: seq<string>, name: string, value: string)
    requires FeedArgs(argparams, arglines).Success?
    requires |arglines| > 0 && ArgLine(arglines[|arglines| - 1]) == Some((name, value))
    requires name !in {"allowduplicates", "keepmin", "maxage"}
    ensures FeedArgs(argparams, arglines).value[name] == Str(value)
  {
    var p1 := Pairs(argparams, ArgParam).value;
    var p2 := Pairs(arglines, ArgLine).value;
    var all := p1 + p2;
    PairsSucceed(arglines, ArgLine);
    assert all[|all| - 1] == p2[|arglines| - 1] == (name, value);
    OverlayLastWins(all, |all| - 1);
  }

  // ---------------------------------------------------------------------
  // The configuration and load_line

  /** A `feed` directive: URL, period in seconds and converted arguments. */
  datatype FeedDecl = FeedDecl(url: string, period: int, args: Args)

  datatype Settings = Settings(
    feedslist: seq<FeedDecl>,
    feeddefaults: Args,
    defines: map<string, string>,
    outputfile: string,
    maxarticles: int,
    maxage: int,
    expireage: int,
    keepmin: int,
    dayformat: string,
    timeformat: string,
    datetimeformat: string,
    showfeeds: bool,
    timeout: int,
    daysections: bool,
    timesections: bool,
    sortbyfeeddate: bool,
    currentonly: bool,
    newfeedperiod: string,
    numthreads: int)

  /** What `reset` installs before any file is read. */
  const Defaults := Settings(
    [], map[], map[], "index.html", 200, 0, 24 * 60 * 60, 0,
    "%A %Y-%m-%d", "%I:%M %p", "%Y-%m-%d %I:%M %p",
    true, 30, true, true, false, false, "3h", 4)

  /** How the value of a one-value directive is read. */
  datatype Kind = IntKind | TimeKind(unit: char) | BoolKind | TextKind

  datatype Value = IntV(i: int) | BoolV(b: bool) | TextV(t: string)

  /** The settings a one-value directive sets. */
  datatype Setting = MaxArticles | KeepMin | NumThreads | MaxAge | ExpireAge | Timeout
                   | ShowFeeds | DaySections | TimeSections | SortByFeedDate | CurrentOnly
                   | OutputFile | NewFeedPeriod

  /** The one-value directives, by command word. */
  function SettingNamed(cmd: string): Option<Setting> {
    if cmd == "maxarticles" then Some(MaxArticles)
    else if cmd == "keepmin" then Some(KeepMin)
    else if cmd == "numthreads" then Some(NumThreads)
    else if cmd == "maxage" then Some(MaxAge)
    else if cmd == "expireage" then Some(ExpireAge)
    else if cmd == "timeout" then Some(Timeout)
    else if cmd == "showfeeds" then Some(ShowFeeds)
    else if cmd == "daysections" then Some(DaySections)
    else if cmd == "timesections" then Some(TimeSections)
    else if cmd == "sortbyfeeddate" then Some(SortByFeedDate)
    else if cmd == "currentonly" then Some(CurrentOnly)
    else if cmd == "outputfile" then Some(OutputFile)
    else if cmd == "newfeedperiod" then Some(NewFeedPeriod)
    else None
  }

  /** How each setting reads its value: times in minutes, except the timeout in seconds. */
  function KindOf(name: Setting): (k: Kind)
    ensures k.TimeKind? ==> IsUnit(k.unit)
  {
    match name
    case MaxArticles | KeepMin | NumThreads => IntKind
    case MaxAge | ExpireAge => TimeKind('m')
    case Timeout => TimeKind('s')
    case ShowFeeds | DaySections | TimeSections | SortByFeedDate | CurrentOnly => BoolKind
    case OutputFile | NewFeedPeriod => TextKind
  }

  /** A value of the shape a kind of directive reads. */
  predicate Fits(kind: Kind, v: Value) {
    (kind.IntKind? || kind.TimeKind?) == v.IntV? && kind.BoolKind? == v.BoolV?
  }

  function ParseValue(kind: Kind, text: string): (r: Option<Value>)
    requires kind.TimeKind? ==> IsUnit(kind.unit)
    ensures r.Some? ==> Fits(kind, r.value)
  {
    match kind
    case IntKind => (match ParseInt(text) case Some(n) => Some(IntV(n)) case None => None)
    case TimeKind(u) => (match ParseTime(text, u) case Some(n) => Some(IntV(n)) case None => None)
    case BoolKind => (match ParseBool(text) case Some(b) => Some(BoolV(b)) case None => None)
    case TextKind => Some(TextV(text))
  }

  /** Store the value of a one-value directive in its setting. */
  function Assign(cfg: Settings, name: Setting, v: Value): (r: Settings)
    ensures r.feedslist == cfg.feedslist && r.feeddefaults == cfg.feeddefaults && r.defines == cfg.defines
  {
    match (name, v)
    case (MaxArticles, IntV(n)) => cfg.(maxarticles := n)
    case (KeepMin, IntV(n)) => cfg.(keepmin := n)
    case (NumThreads, IntV(n)) => cfg.(numthreads := n)
    case (MaxAge, IntV(n)) => cfg.(maxage := n)
    case (ExpireAge, IntV(n)) => cfg.(expireage := n)
    case (Timeout, IntV(n)) => cfg.(timeout := n)
    case (ShowFeeds, BoolV(b)) => cfg.(showfeeds := b)
    case (DaySections, BoolV(b)) => cfg.(daysections := b)
    case (TimeSections, BoolV(b)) => cfg.(timesections := b)
    case (SortByFeedDate, BoolV(b)) => cfg.(sortbyfeeddate := b)
    case (CurrentOnly, BoolV(b)) => cfg.(currentonly := b)
    case (OutputFile, TextV(t)) => cfg.(outputfile := t)
    case (NewFeedPeriod, TextV(t)) => cfg.(newfeedperiod := t)
    case _ => cfg
  }

  /** The directive `cmd value`, before the check on stray argument lines. */
  function Directive(cfg: Settings, line: string, cmd: string, value: string, arglines: seq<string>): (r: Result<Settings, ConfigError>)
    ensures r.Success? ==> cfg.feedslist <= r.value.feedslist && |r.value.feedslist| <= |cfg.feedslist| + 1
    ensures r.Success? && cmd != "feed" ==> r.value.feedslist == cfg.feedslist
  {
    if cmd == "feed" then
      var ws := SplitWs(value);
      if |ws| < 2 then Failure(BadLine(line))
      else
        match ParseTime(ws[0])
        case None => Failure(BadValue)
        case Some(period) =>
          match FeedArgs(ws[2..], arglines)
          case Failure(e) => Failure(e)
          case Success(args) => Success(cfg.(feedslist := cfg.feedslist + [FeedDecl(ws[1], period, args)]))
    else if cmd == "feeddefaults" then
      match FeedArgs(SplitWs(value), arglines)
      case Failure(e) => Failure(e)
      case Success(args) => Success(cfg.(feeddefaults := args))
    else if cmd == "define" then
      var d := SplitWsOnce(value);
      if |d| != 2 then Failure(BadLine(line)) else Success(cfg.(defines := cfg.defines[d[0] := d[1]]))
    else
      match SettingNamed(cmd)
      case None => Failure(UnknownCommand(cmd))
      case Some(name) =>
        match ParseValue(KindOf(name), value)
        case None => Failure(BadValue)
        case Some(v) => Success(Assign(cfg, name, v))
  }

  /** `load_line(line, arglines)` on a stripped directive line: the command
    * word, then its value (empty for a bare `feeddefaults`). */
  function LoadLine(cfg: Settings, line: string, arglines: seq<string>): (r: Result<Settings, ConfigError>)
    ensures r.Success? && arglines != [] ==> |SplitWsOnce(line)| >= 1 && SplitWsOnce(line)[0] in {"feed", "feeddefaults"}
    ensures r.Success? ==> cfg.feedslist <= r.value.feedslist && |r.value.feedslist| <= |cfg.feedslist| + 1
  {
    var l := SplitWsOnce(line);
    if |l| == 1 && l[0] == "feeddefaults" then Directive(cfg, line, "feeddefaults", "", arglines)
    else if |l| != 2 then Failure(BadLine(line))
    else
      var r := Directive(cfg, line, l[0], l[1], arglines);
      if r.Success? && arglines != [] && l[0] != "feed" && l[0] != "feeddefaults" then Failure(BadArgumentLines(line))
      else r
  }

  /** A `feed` line whose words are `feed PERIOD URL params`, however they are spaced, appends
    * exactly its declaration; other settings are untouched. */
  lemma LoadFeedLine(cfg: Settings, line: string, period: string, url: string, params: seq<string>,
                     arglines: seq<string>, seconds: int, args: Args)
    requires SplitWs(line) == ["feed", period, url] + params
    requires ParseTime(period) == Some(seconds) && FeedArgs(params, arglines) == Success(args)
    ensures LoadLine(cfg, line, arglines)
            == Success(cfg.(feedslist := cfg.feedslist + [FeedDecl(url, seconds, args)]))
  {
    FeedWords(period, url, params);
    SplitWsOnceRest(line, "feed", [period, url] + params);
    var value := SplitWsOnce(line)[1];
    FeedDirective(cfg, line, value, period, url, params, arglines, seconds, args);
    LoadLineIsDirective(cfg, line, "feed", value, arglines);
  }

  lemma FeedWords(period: string, url: string, params: seq<string>)
    ensures ["feed", period, url] + params == ["feed"] + ([period, url] + params)
  {
  }

  lemma FeedDirective(cfg: Settings, line: string, value: string, period: string, url: string, params: seq<string>,
                      arglines: seq<string>, seconds: int, args: Args)
    requires SplitWs(value) == [period, url] + params
    requires ParseTime(period) == Some(seconds) && FeedArgs(params, arglines) == Success(args)
    ensures Directive(cfg, line, "feed", value, arglines)
            == Success(cfg.(feedslist := cfg.feedslist + [FeedDecl(url, seconds, args)]))
  {
    assert ([period, url] + params)[2..] == params;
  }

  /** On a line of a command and a value, `load_line` is the directive itself when the command
    * takes argument lines or there are none. */
  lemma LoadLineIsDirective(cfg: Settings, line: string, cmd: string, value: string, arglines: seq<string>)
    requires SplitWsOnce(line) == [cmd, value] && (cmd in {"feed", "feeddefaults"} || arglines == [])
    ensures LoadLine(cfg, line, arglines) == Directive(cfg, line, cmd, value, arglines)
  {
  }

  /** A `feed` line with fewer than two words after the command is a bad line. */
  lemma ShortFeedLine(cfg: Settings, line: string, value: string, arglines: seq<string>)
    requires SplitWsOnce(line) == ["feed", value] && |SplitWs(value)| < 2
    ensures LoadLine(cfg, line, arglines) == Failure(BadLine(line))
  {
  }

  /** A bare `feeddefaults` clears the defaults or sets them from its argument lines alone. */
  lemma BareFeedDefaults(cfg: Settings, line: string, arglines: seq<string>, args: Args)
    requires SplitWsOnce(line) == ["feeddefaults"]
    requires FeedArgs([], arglines) == Success(args)
    ensures LoadLine(cfg, line, arglines) == Success(cfg.(feeddefaults := args))
  {
    BareIsDirective(cfg, line, arglines);
    EmptyDefaults(cfg, line, arglines, args);
  }

  lemma BareIsDirective(cfg: Settings, line: string, arglines: seq<string>)
    requires SplitWsOnce(line) == ["feeddefaults"]
    ensures LoadLine(cfg, line, arglines) == Directive(cfg, line, "feeddefaults", "", arglines)
  {
    var l := SplitWsOnce(line);
    assert |l| == 1;
    assert l[0] == "feeddefaults";
  }

  lemma EmptyDefaults(cfg: Settings, line: string, arglines: seq<string>, args: Args)
    requires FeedArgs([], arglines) == Success(args)
    ensures Directive(cfg, line, "feeddefaults", "", arglines) == Success(cfg.(feeddefaults := args))
  {
    assert SplitWs("") == [];
  }

  /** A command word that names no directive is reported, whatever its value. */
  lemma UnknownDirective(cfg: Settings, line: string, cmd: string, value: string, arglines: seq<string>)
    requires SplitWsOnce(line) == [cmd, value]
    requires cmd !in {"feed", "feeddefaults", "define"} && SettingNamed(cmd).None?
    ensures LoadLine(cfg, line, arglines) == Failure(UnknownCommand(cmd))
  {
  }

  /** Argument lines under a directive other than `feed` or `feeddefaults` are an error
    * even when the directive itself is fine. */
  lemma StrayArgLines(cfg: Settings, line: string, arglines: seq<string>)
    requires arglines != [] && |SplitWsOnce(line)| == 2
    requires SplitWsOnce(line)[0] !in {"feed", "feeddefaults"}
    requires Directive(cfg, line, SplitWsOnce(line)[0], SplitWsOnce(line)[1], arglines).Success?
    ensures LoadLine(cfg, line, arglines) == Failure(BadArgumentLines(line))
  {
  }

  /** `self[key]` for the one-value settings. */
  function Get(cfg: Settings, name: Setting): Value {
    match name
    case MaxArticles => IntV(cfg.maxarticles)
    case KeepMin => IntV(cfg.keepmin)
    case NumThreads => IntV(cfg.numthreads)
    case MaxAge => IntV(cfg.maxage)
    case ExpireAge => IntV(cfg.expireage)
    case Timeout => IntV(cfg.timeout)
    case ShowFeeds => BoolV(cfg.showfeeds)
    case DaySections => BoolV(cfg.daysections)
    case TimeSections => BoolV(cfg.timesections)
    case SortByFeedDate => BoolV(cfg.sortbyfeeddate)
    case CurrentOnly => BoolV(cfg.currentonly)
    case OutputFile => TextV(cfg.outputfile)
    case NewFeedPeriod => TextV(cfg.newfeedperiod)
  }

  /** Every setting holds a value of the kind its directive reads. */
  lemma GetFits(cfg: Settings, name: Setting)
    ensures Fits(KindOf(name), Get(cfg, name))
  {
  }

  /** Storing a value of the right kind: reading the setting back gives it. */
  lemma AssignGet(cfg: Settings, name: Setting, v: Value)
    requires Fits(KindOf(name), v)
    ensures Get(Assign(cfg, name, v), name) == v
  {
  }

  /** Storing a value leaves every other setting as it was. */
  lemma AssignKeepsOthers(cfg: Settings, name: Setting, v: Value, other: Setting)
    requires other != name
    ensures Get(Assign(cfg, name, v), other) == Get(cfg, other)
  {
  }

  /** A one-value directive stores its parsed value in its setting and touches nothing else. */
  lemma LoadSetting(cfg: Settings, line: string, cmd: string, value: string, name: Setting, v: Value)
    requires SplitWsOnce(line) == [cmd, value] && cmd !in {"feed", "feeddefaults", "define"}
    requires SettingNamed(cmd) == Some(name) && ParseValue(KindOf(name), value) == Some(v)
    ensures LoadLine(cfg, line, []) == Success(Assign(cfg, name, v))
    ensures Get(LoadLine(cfg, line, []).value, name) == v
  {
    LoadLineIsDirective(cfg, line, cmd, value, []);
    SettingDirective(cfg, line, cmd, value, name, v);
    AssignGet(cfg, name, v);
  }

  lemma SettingDirective(cfg: Settings, line: string, cmd: string, value: string, name: Setting, v: Value)
    requires cmd !in {"feed", "feeddefaults", "define"}
    requires SettingNamed(cmd) == Some(name) && ParseValue(KindOf(name), value) == Some(v)
    ensures Directive(cfg, line, cmd, value, []) == Success(Assign(cfg, name, v))
  {
  }

  // ---------------------------------------------------------------------
  // Grouping the lines of a file (load)

  /** A directive line with the indented argument lines that follow it, all stripped. */
  datatype Group = Group(line: string, arglines: seq<string>)

  /** Blank lines and comments are skipped. */
  predicate Counts(line: string) {
    Strip(line) != [] && Strip(line)[0] != '#'
  }

  /** A line that counts and starts with whitespace continues the previous directive. */
  predicate Continues(line: string) {
    Counts(line) && IsAsciiSpace(line[0])
  }

  /** The grouping `load` builds from the lines of a file. */
  function GroupsOf(lines: seq<string>): (r: Result<seq<Group>, ConfigError>)
    ensures r.Failure? ==> r.error == FirstLineIsArgument
    decreases |lines|
  {
    if lines == [] then Success([])
    else
      match GroupsOf(lines[..|lines| - 1])
      case Failure(e) => Failure(e)
      case Success(gs) => AddLine(gs, lines[|lines| - 1])
  }

  /** One line of the file added to the groups so far. */
  function AddLine(gs: seq<Group>, line: string): (r: Result<seq<Group>, ConfigError>)
    ensures r.Failure? ==> r.error == FirstLineIsArgument
  {
    if !Counts(line) then Success(gs)
    else if Continues(line) then
      if gs == [] then Failure(FirstLineIsArgument)
      else
        var g := gs[|gs| - 1];
        Success(gs[..|gs| - 1] + [g.(arglines := g.arglines + [Strip(line)])])
    else Success(gs + [Group(Strip(line), [])])
  }

  /** The loop over the file's lines in `load`. */
  method GroupLines(lines: seq<string>) returns (r: Result<seq<Group>, ConfigError>)
    ensures r == GroupsOf(lines)
  {
    var groups: seq<Group> := [];
    var i := 0;
    while i < |lines|
      invariant 0 <= i <= |lines|
      invariant GroupsOf(lines[..i]) == Success(groups)
    {
      var line := lines[i];
      assert lines[..i + 1][..i] == lines[..i];
      var stripped := Strip(line);
      if stripped == [] || stripped[0] == '#' {
      } else if IsAsciiSpace(line[0]) {
        if groups == [] {
          PrefixFailure(lines, i + 1);
          return Failure(FirstLineIsArgument);
        }
        var g := groups[|groups| - 1];
        groups := groups[..|groups| - 1] + [g.(arglines := g.arglines + [stripped])];
      } else {
        groups := groups + [Group(stripped, [])];
      }
      i := i + 1;
    }
    assert lines[..i] == lines;
    r := Success(groups);
  }

  /** Once a prefix of the file is rejected, the whole file is. */
  lemma {:induction false} PrefixFailure(lines: seq<string>, n: nat)
    requires n <= |lines| && GroupsOf(lines[..n]).Failure?
    ensures GroupsOf(lines).Failure?
    decreases |lines|
  {
    if n < |lines| {
      assert lines[..|lines| - 1][..n] == lines[..n];
      PrefixFailure(lines[..|lines| - 1], n);
    } else {
      assert lines[..n] == lines;
    }
  }

  /** The lines that count, in file order. */
  function Kept(lines: seq<string>): (r: seq<string>)
    ensures forall i :: 0 <= i < |r| ==> Counts(r[i])
    decreases |lines|
  {
    if lines == [] then []
    else
      var init := Kept(lines[..|lines| - 1]);
      if Counts(lines[|lines| - 1]) then init + [lines[|lines| - 1]] else init
  }

  function StripAll(lines: seq<string>): seq<string> decreases |lines| {
    if lines == [] then [] else StripAll(lines[..|lines| - 1]) + [Strip(lines[|lines| - 1])]
  }

  /** Every group's directive and argument lines, in order. */
  function Flatten(gs: seq<Group>): seq<string> decreases |gs| {
    if gs == [] then [] else Flatten(gs[..|gs| - 1]) + [gs[|gs| - 1].line] + gs[|gs| - 1].arglines
  }

  /** The file is rejected exactly when its first line that counts is indented; otherwise the
    * groups hold every such line, stripped and in order, and there are groups iff there are such lines. */
  lemma {:induction false} GroupsOfKept(lines: seq<string>)
    ensures GroupsOf(lines).Failure? <==> Kept(lines) != [] && Continues(Kept(lines)[0])
    ensures GroupsOf(lines).Success? ==> Flatten(GroupsOf(lines).value) == StripAll(Kept(lines))
    ensures GroupsOf(lines).Success? ==> (GroupsOf(lines).value == [] <==> Kept(lines) == [])
    decreases |lines|
  {
    if lines != [] {
      var init := lines[..|lines| - 1];
      var line := lines[|lines| - 1];
      GroupsOfKept(init);
      var k := Kept(init);
      assert Kept(lines) == if Counts(line) then k + [line] else k;
      if k != [] { assert Kept(lines)[0] == k[0]; }
      if GroupsOf(init).Success? {
        GroupStep(GroupsOf(init).value, k, line);
      }
    }
  }

  /** `AddLine` keeps the relation between the groups and the lines that count. */
  lemma GroupStep(gs: seq<Group>, k: seq<string>, line: string)
    requires Flatten(gs) == StripAll(k) && (gs == [] <==> k == [])
    requires k != [] ==> !Continues(k[0])
    ensures var k2 := if Counts(line) then k + [line] else k;
            AddLine(gs, line).Failure? <==> k2 != [] && Continues(k2[0])
    ensures var k2 := if Counts(line) then k + [line] else k;
            AddLine(gs, line).Success? ==> Flatten(AddLine(gs, line).value) == StripAll(k2)
    ensures var k2 := if Counts(line) then k + [line] else k;
            AddLine(gs, line).Success? ==> (AddLine(gs, line).value == [] <==> k2 == [])
  {
    if Counts(line) {
      StripAllSnoc(k, line);
      if k != [] { assert (k + [line])[0] == k[0]; }
      if Continues(line) && gs != [] {
        ContinueStep(gs, Strip(line));
      } else if !Continues(line) {
        var gs2 := gs + [Group(Strip(line), [])];
        assert gs2[..|gs2| - 1] == gs;
      }
    }
  }

  lemma ContinueStep(gs: seq<Group>, arg: string)
    requires gs != []
    ensures var g := gs[|gs| - 1];
            Flatten(gs[..|gs| - 1] + [g.(arglines := g.arglines + [arg])]) == Flatten(gs) + [arg]
  {
    var g := gs[|gs| - 1];
    var gs2 := gs[..|gs| - 1] + [g.(arglines := g.arglines + [arg])];
    assert gs2[..|gs2| - 1] == gs[..|gs| - 1];
  }

  lemma StripAllSnoc(lines: seq<string>, line: string)
    ensures StripAll(lines + [line]) == StripAll(lines) + [Strip(line)]
  {
    assert (lines + [line])[..|lines|] == lines;
  }

  /** `load`: the groups, each loaded in turn; the first failure stops the file. */
  function LoadGroups(cfg: Settings, gs: seq<Group>): (r: Result<Settings, ConfigError>)
    ensures r.Success? ==> cfg.feedslist <= r.value.feedslist && |r.value.feedslist| <= |cfg.feedslist| + |gs|
    decreases |gs|
  {
    if gs == [] then Success(cfg)
    else
      match LoadLine(cfg, gs[0].line, gs[0].arglines)
      case Failure(e) => Failure(e)
      case Success(next) => LoadGroups(next, gs[1..])
  }

  // ---------------------------------------------------------------------
  // ChangeFeedEditor

  /** One line of the file as `ChangeFeedEditor.edit` writes it back. */
  function EditLine(line: string, oldurl: string, newurl: string): string {
    var ls := SplitWs(Strip(line));
    if |ls| > 2 && ls[0] == "feed" && ls[2] == oldurl then ReplaceFirst(line, oldurl, newurl) else line
  }

  /** `ChangeFeedEditor.edit`: copies the file line by line, rewriting the `feed` line of the old URL. */
  method EditConfig(lines: seq<string>, oldurl: string, newurl: string) returns (out: seq<string>)
    ensures |out| == |lines|
    ensures forall i :: 0 <= i < |lines| ==> out[i] == EditLine(lines[i], oldurl, newurl)
  {
    out := CopyLines(lines, line => EditLine(line, oldurl, newurl));
  }

  /** Writes each line of the input, as `edit` turns it, to the output. */
  method CopyLines(lines: seq<string>, edit: string -> string) returns (out: seq<string>)
    ensures |out| == |lines|
    ensures forall i :: 0 <= i < |lines| ==> out[i] == edit(lines[i])
  {
    out := [];
    var i := 0;
    while i < |lines|
      invariant 0 <= i <= |lines| && |out| == i
      invariant forall j :: 0 <= j < i ==> out[j] == edit(lines[j])
    {
      out := out + [edit(lines[i])];
      i := i + 1;
    }
  }

  /** A line that is not the `feed` line of the old URL is written back as it was. */
  lemma EditKeepsOtherLines(line: string, oldurl: string, newurl: string)
    requires |SplitWs(Strip(line))| <= 2 || SplitWs(Strip(line))[0] != "feed" || SplitWs(Strip(line))[2] != oldurl
    ensures EditLine(line, oldurl, newurl) == line
  {
  }

  /** On any `feed` line for the old URL, however it is indented and spaced and whatever ends it
    * (the newline included), where the old URL does not occur before the URL field: the edit
    * replaces just that field, the line then declares the new URL, and its other words stay. */
  lemma EditFeedLine(head: string, oldurl: string, newurl: string, tail: string)
    requires |SplitWs(head)| == 2 && SplitWs(head)[0] == "feed"
    requires head != [] && IsSpace(head[|head| - 1])
    requires oldurl != [] && NoSpace(oldurl) && newurl != [] && NoSpace(newurl)
    requires tail == [] || IsSpace(tail[0])
    requires forall j :: 0 <= j < |head| ==> !OccursAt(head + oldurl + tail, oldurl, j)
    ensures EditLine(head + oldurl + tail, oldurl, newurl) == head + newurl + tail
    ensures SplitWs(Strip(head + newurl + tail)) == SplitWs(head) + [newurl] + SplitWs(tail)
  {
    EditFeedField(head, oldurl, newurl, tail);
    FieldWords(head, newurl, tail);
  }

  lemma EditFeedField(head: string, oldurl: string, newurl: string, tail: string)
    requires |SplitWs(head)| == 2 && SplitWs(head)[0] == "feed"
    requires head != [] && IsSpace(head[|head| - 1])
    requires oldurl != [] && NoSpace(oldurl)
    requires tail == [] || IsSpace(tail[0])
    requires forall j :: 0 <= j < |head| ==> !OccursAt(head + oldurl + tail, oldurl, j)
    ensures EditLine(head + oldurl + tail, oldurl, newurl) == head + newurl + tail
  {
    var line := head + oldurl + tail;
    var ls := SplitWs(Strip(line));
    FeedFieldWords(head, oldurl, tail);
    assert EditLine(line, oldurl, newurl) == ReplaceFirst(line, oldurl, newurl) by {
      EditRewrites(line, oldurl, newurl);
    }
    assert ReplaceFirst(line, oldurl, newurl) == head + newurl + tail by {
      ReplaceFirstAt(head, oldurl, tail, newurl);
    }
  }

  /** A line with `feed` and one more word before the URL field declares that URL. */
  lemma FeedFieldWords(head: string, url: string, tail: string)
    requires |SplitWs(head)| == 2 && SplitWs(head)[0] == "feed"
    requires head != [] && IsSpace(head[|head| - 1])
    requires url != [] && NoSpace(url)
    requires tail == [] || IsSpace(tail[0])
    ensures var ls := SplitWs(Strip(head + url + tail)); |ls| > 2 && ls[0] == "feed" && ls[2] == url
  {
    FieldWords(head, url, tail);
    ThirdWord(SplitWs(head), url, SplitWs(tail));
  }

  lemma ThirdWord(front: seq<string>, url: string, back: seq<string>)
    requires |front| == 2
    ensures var ls := front + [url] + back; |ls| > 2 && ls[0] == front[0] && ls[2] == url
  {
  }

  /** The `feed` line of the old URL gets the replacement. */
  lemma EditRewrites(line: string, oldurl: string, newurl: string)
    requires var ls := SplitWs(Strip(line)); |ls| > 2 && ls[0] == "feed" && ls[2] == oldurl
    ensures EditLine(line, oldurl, newurl) == ReplaceFirst(line, oldurl, newurl)
  {
  }

  /** The words of a line with a word set off by whitespace in the middle. */
  lemma FieldWords(head: string, url: string, tail: string)
    requires head != [] && IsSpace(head[|head| - 1])
    requires url != [] && NoSpace(url)
    requires tail == [] || IsSpace(tail[0])
    ensures SplitWs(Strip(head + url + tail)) == SplitWs(head) + [url] + SplitWs(tail)
  {
    SplitWsStrip(head + url + tail);
    Regroup3(head, url, tail);
    SplitWsAppend(head, url + tail);
    SplitWsAppend(url, tail);
    SplitWsWord(url);
    Regroup3(SplitWs(head), [url], SplitWs(tail));
  }
}
