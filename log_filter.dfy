/** The log filter that drops polling time-out noise (common/utils/filters.py). */
module LogFilter {
  import Text

  /** A log record, reduced to what `getMessage()` returns. */
  datatype LogRecord = LogRecord(message: string, level: int, loggerName: string)
  {
    function GetMessage(): string { message }
  }

  const TIMED_OUT: string := "Error while getting Updates: Timed out"

  /** `TimedOutFilter.filter`: keep the record unless its message mentions the polling time-out. */
  function Filter(record: LogRecord): (keep: bool)
    ensures !keep <==> exists i :: Text.OccursAt(record.GetMessage(), TIMED_OUT, i)
  {
    !Text.Contains(record.GetMessage(), TIMED_OUT)
  }

  /** Any message with the time-out text somewhere inside it is dropped, not only the exact text. */
  lemma DropsLongerMessages(pre: string, post: string, level: int, loggerName: string)
    ensures !Filter(LogRecord(pre + TIMED_OUT + post, level, loggerName))
  {
    var m := pre + TIMED_OUT + post;
    assert m[|pre|..|pre| + |TIMED_OUT|] == TIMED_OUT;
    assert Text.OccursAt(m, TIMED_OUT, |pre|);
  }

  /** The verdict depends on the message alone, not on the other fields of the record. */
  lemma DependsOnMessageOnly(r1: LogRecord, r2: LogRecord)
    requires r1.GetMessage() == r2.GetMessage()
    ensures Filter(r1) == Filter(r2)
  {
  }

  /** Messages that merely resemble the time-out text are kept. */
  lemma KeepsNearMisses()
    ensures Filter(LogRecord("Error while getting Updates: Timed ou", 40, "telegram"))
    ensures !Filter(LogRecord("Error while getting Updates: Timed out (x2)", 40, "telegram"))
  {
    var m := "Error while getting Updates: Timed out (x2)";
    assert m[0..|TIMED_OUT|] == TIMED_OUT;
    assert Text.OccursAt(m, TIMED_OUT, 0);
  }
}
