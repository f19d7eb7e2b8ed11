/** The command line of the two demo programs
    (pySlipQt/examples/pyslipqt_demo.py and pyslipqt/pyslipqt_demo.py):
    `-d`/`--debug` sets the logging level, numerically or by a symbolic
    name in any letter case, and `-h`/`--help` prints the usage and
    exits. Getopt itself is given as its result. */
module DebugOption {
  import opened PyText

  /** The symbolic logging level names and their numbers. */
  const LogSym2Num: map<string, int> :=
    map["CRITICAL" := 50, "ERROR" := 40, "WARNING" := 30, "INFO" := 20, "DEBUG" := 10, "NOTSET" := 0]

  /** The level used when no `-d` option is given. */
  const DefaultLevel := 10

  predicate IsDebug(opt: string) { opt == "-d" || opt == "--debug" }
  predicate IsHelp(opt: string) { opt == "-h" || opt == "--help" }

  /** How the option handling ends: the process exits with a status, or
      the demo starts with a logging level. */
  datatype Startup = Exit(code: int) | Start(level: int)

  /** The parameter of the last `-d` option, which overrides every
      earlier one; None when there is none. */
  function LastDebug(opts: seq<(string, string)>): (r: Option<string>)
    ensures r.None? ==> forall j :: 0 <= j < |opts| ==> !IsDebug(opts[j].0)
    ensures r.Some? ==> exists j :: (0 <= j < |opts| && IsDebug(opts[j].0) && opts[j].1 == r.value &&
      forall k :: j < k < |opts| ==> !IsDebug(opts[k].0))
  {
    if opts == [] then None
    else if IsDebug(opts[|opts| - 1].0) then Some(opts[|opts| - 1].1)
    else LastDebug(opts[..|opts| - 1])
  }

  /** The conversion of the `-d` value: int() when that succeeds,
      otherwise the level named by the upper-cased value; None where the
      name is unknown. */
  function DebugLevel(s: string): (r: Option<int>)
    ensures r.Some? && ParseInt(s).None? ==> r.value in {0, 10, 20, 30, 40, 50}
  {
    match ParseInt(s)
    case Some(n) => Some(n)
    case None =>
      var u := Upper(s);
      if u in LogSym2Num then LevelsOfNames(u); Some(LogSym2Num[u]) else None
  }

  /** The six names stand for the six standard logging levels. */
  lemma LevelsOfNames(name: string)
    requires name in LogSym2Num
    ensures LogSym2Num[name] in {0, 10, 20, 30, 40, 50}
  {
    assert LogSym2Num.Keys == {"CRITICAL", "ERROR", "WARNING", "INFO", "DEBUG", "NOTSET"};
  }

  /** Any integer written out with str() is taken as it is: no range
      check applies. */
  lemma NumericLevel(n: int)
    ensures DebugLevel(IntToString(n)) == Some(n)
  {
    ParseIntToString(n);
  }

  lemma NamesAreCapitals()
    ensures forall k :: k in LogSym2Num ==> k != [] && forall i :: 0 <= i < |k| ==> 'A' <= k[i] <= 'Z'
  {
    assert LogSym2Num.Keys == {"CRITICAL", "ERROR", "WARNING", "INFO", "DEBUG", "NOTSET"};
  }

  /** A character whose upper case is a capital letter is not white space,
      a digit or a sign. */
  lemma CapitalSource(c: char)
    requires 'A' <= UpperChar(c) <= 'Z'
    ensures !IsSpace(c) && !IsDigit(c) && c != '-' && c != '+'
  {
  }

  /** A level name in any letter case, "debug" or "Warning" as much as
      "DEBUG", gives that level: int() never accepts such a value first. */
  lemma {:induction false} NamedLevel(s: string)
    requires Upper(s) in LogSym2Num
    ensures DebugLevel(s) == Some(LogSym2Num[Upper(s)])
  {
    NamesAreCapitals();
    var u := Upper(s);
    assert s != [] by { assert |u| == |s| && u != []; }
    CapitalSource(s[0]);
    CapitalSource(s[|s| - 1]);
    StripUnchanged(s);
    assert ParseUnsigned(s).None?;
  }

  /** The option handling at the end of each demo: a getopt error exits
      with 1; the first `-h` exits with 0; otherwise the level is 10, or
      the converted value of the last `-d`, and an unknown name exits with
      1. */
  method HandleOptions(parsed: Getopt) returns (r: Startup)
    ensures parsed.GetoptError? ==> r == Exit(1)
    ensures parsed.Parsed? && (exists j :: 0 <= j < |parsed.opts| && IsHelp(parsed.opts[j].0)) ==> r == Exit(0)
    ensures parsed.Parsed? && (forall j :: 0 <= j < |parsed.opts| ==> !IsHelp(parsed.opts[j].0)) ==>
      r == match LastDebug(parsed.opts)
           case None => Start(DefaultLevel)
           case Some(d) => if DebugLevel(d).Some? then Start(DebugLevel(d).value) else Exit(1)
  {
    if parsed.GetoptError? {
      return Exit(1);
    }
    var opts := parsed.opts;
    var debug: Option<string> := None;
    var i := 0;
    while i < |opts|
      invariant 0 <= i <= |opts|
      invariant forall j :: 0 <= j < i ==> !IsHelp(opts[j].0)
      invariant debug == LastDebug(opts[..i])
    {
      var (opt, param) := opts[i];
      assert opts[..i + 1][..i] == opts[..i];
      if IsDebug(opt) {
        debug := Some(param);
      } else if IsHelp(opt) {
        return Exit(0);
      }
      i := i + 1;
    }
    assert opts[..i] == opts;
    match debug
    case None =>
      r := Start(DefaultLevel);
    case Some(d) =>
      var level := DebugLevel(d);
      r := if level.Some? then Start(level.value) else Exit(1);
  }
}
