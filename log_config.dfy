/**
 * Run-time log level control (config/log_config.py): the level tables, the
 * module's list of handlers, and `log_level`, which reports the current level
 * and optionally sets every handler to a new one.
 */
module LogConfig {
  import opened Wrappers
  import Text

  const DEBUG: int := 10
  const INFO: int := 20
  const WARNING: int := 30
  const EMAIL_WARNING: int := 35
  const ERROR: int := 40
  const CRITICAL: int := 50

  /** `LOG_LEVELS`: the accepted numeric levels, each mapped to the logging constant. */
  const LOG_LEVELS: map<int, int> :=
    map[10 := DEBUG, 20 := INFO, 30 := WARNING, 35 := EMAIL_WARNING, 40 := ERROR, 50 := CRITICAL]

  /** `LOG_LABELS`: the name printed for each level. */
  const LOG_LABELS: map<int, string> :=
    map[10 := "DEBUG", 20 := "INFO", 30 := "WARNING", 35 := "EMAIL_WARNING", 40 := "ERROR", 50 := "CRITICAL"]

  /** The two tables cover the same six levels, and every level maps to itself. */
  lemma TablesAgree()
    ensures LOG_LEVELS.Keys == LOG_LABELS.Keys == {10, 20, 30, 35, 40, 50}
    ensures forall level :: level in LOG_LEVELS ==> LOG_LEVELS[level] == level
  {
  }

  /** `LOG_LEVELS.get(level, level)`. */
  function NewLevel(level: int): int
  {
    if level in LOG_LEVELS then LOG_LEVELS[level] else level
  }

  /** Looking a level up in `LOG_LEVELS` with itself as default never changes it. */
  lemma NewLevelIsInput(level: int)
    ensures NewLevel(level) == level
  {
  }

  /** The error raised by `log_level`. */
  datatype LookupError = IndexError | KeyError(key: int)

  /** `f'{LOG_LABELS[level]}({level})'`, or the `KeyError` of an unknown level. */
  function LevelReport(level: int): (r: Result<string, LookupError>)
    ensures r.Err? <==> level !in LOG_LABELS
    ensures r.Err? ==> r.error == KeyError(level)
  {
    if level in LOG_LABELS then Ok(LOG_LABELS[level] + "(" + Text.IntToString(level) + ")")
    else Err(KeyError(level))
  }

  /** Different levels never give the same report: the number in parentheses identifies the level. */
  lemma ReportIdentifiesLevel(l1: int, l2: int)
    requires LevelReport(l1).Ok? && LevelReport(l1) == LevelReport(l2)
    ensures l1 == l2
  {
    LabelsWithoutParenthesis();
    var n1, n2 := Text.IntToString(l1), Text.IntToString(l2);
    ReportNumber(LOG_LABELS[l1], n1, LOG_LABELS[l2], n2);
    Text.IntToStringInjective(l1, l2);
  }

  lemma LabelsWithoutParenthesis()
    ensures forall level :: level in LOG_LABELS ==> '(' !in LOG_LABELS[level]
  {
  }

  /** A report `label(number)` with a label free of `(` determines the number. */
  lemma ReportNumber(label1: string, n1: string, label2: string, n2: string)
    requires '(' !in label1 && '(' !in label2
    requires label1 + "(" + n1 + ")" == label2 + "(" + n2 + ")"
    ensures n1 == n2
  {
    assert label1 + "(" + n1 + ")" == label1 + ['('] + (n1 + ")");
    assert label2 + "(" + n2 + ")" == label2 + ['('] + (n2 + ")");
    Text.SeparatedUnique(label1, n1 + ")", label2, n2 + ")", '(');
    assert n1 == (n1 + ")")[..|n1|];
    assert n2 == (n2 + ")")[..|n2|];
  }

  /** A logging handler; only its level is modelled. */
  class Handler {
    var level: int

    constructor (level: int)
      ensures this.level == level
    {
      this.level := level;
    }

    method SetLevel(level: int)
      modifies this
      ensures this.level == level
    {
      this.level := level;
    }
  }

  /** The module state: the `handlers` list every logger is attached to. */
  class LogSetup {
    var handlers: seq<Handler>

    /**
     * The handlers the module builds: a file handler at DEBUG, an e-mail handler
     * at EMAIL_WARNING on a remote deployment only, and a console handler at INFO.
     */
    constructor (deployServer: bool)
      ensures |handlers| == if deployServer then 3 else 2
      ensures forall h :: h in handlers ==> fresh(h)
      ensures handlers[0].level == DEBUG && handlers[|handlers| - 1].level == INFO
      ensures deployServer ==> handlers[1].level == EMAIL_WARNING
    {
      var fh := new Handler(DEBUG);
      var ch := new Handler(INFO);
      if deployServer {
        var mh := new Handler(EMAIL_WARNING);
        handlers := [fh, mh, ch];
      } else {
        handlers := [fh, ch];
      }
    }

    /**
     * `log_level(input_level)`: a truthy level (present and non-zero) is written to
     * every handler before the label lookup, so an unknown level still changes the
     * handlers and then fails with `KeyError`.
     */
    method LogLevel(inputLevel: Option<int>) returns (report: Result<string, LookupError>)
      modifies set h | h in handlers
      ensures handlers == old(handlers)
      ensures |handlers| == 0 ==> report == Err(IndexError)
      ensures |handlers| > 0 && (inputLevel.None? || inputLevel.value == 0) ==>
        (forall h :: h in handlers ==> h.level == old(h.level)) && report == LevelReport(old(handlers[0].level))
      ensures |handlers| > 0 && inputLevel.Some? && inputLevel.value != 0 ==>
        (forall h :: h in handlers ==> h.level == inputLevel.value) && report == LevelReport(inputLevel.value)
    {
      if |handlers| == 0 {
        return Err(IndexError);
      }
      var current := handlers[0].level;
      if inputLevel.Some? && inputLevel.value != 0 {
        var newLevel := NewLevel(inputLevel.value);
        NewLevelIsInput(inputLevel.value);
        current := newLevel;
        var i := 0;
        while i < |handlers|
          invariant 0 <= i <= |handlers|
          invariant forall k :: 0 <= k < i ==> handlers[k].level == newLevel
        {
          handlers[i].SetLevel(newLevel);
          i := i + 1;
        }
      }
      report := LevelReport(current);
    }
  }

  /** Right after start-up the level reported is the file handler's: DEBUG. */
  method InitialReport(deployServer: bool) returns (report: Result<string, LookupError>)
    ensures report == Ok("DEBUG(10)")
  {
    var setup := new LogSetup(deployServer);
    assert setup.handlers[0].level == DEBUG;
    report := setup.LogLevel(None);
    assert report == LevelReport(DEBUG);
    assert Text.IntToString(DEBUG) == "10";
    assert LOG_LABELS[DEBUG] == "DEBUG";
    assert "DEBUG" + "(" + "10" + ")" == "DEBUG(10)";
  }
}
