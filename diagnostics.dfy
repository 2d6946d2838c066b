/** `DiagnosticCollector`: the append-only log a compilation reports its
    diagnostics into. */
module Diagnostics {
  import opened Common

  const NULL_DIAGNOSTIC_MESSAGE: string := "Argument 'diagnostic' cannot be null."

  class DiagnosticCollector<D> {
    /** The reported diagnostics, in report order. */
    var diagnostics: seq<D>

    constructor ()
      ensures diagnostics == []
    {
      diagnostics := [];
    }

    /** Appends a diagnostic; a `null` one is rejected and the log left as it was. */
    method Report(diagnostic: Option<D>) returns (r: Result<()>)
      modifies this
      ensures diagnostic.None? ==> r == Err(IllegalArgument(NULL_DIAGNOSTIC_MESSAGE)) && diagnostics == old(diagnostics)
      ensures diagnostic.Some? ==> r == Ok(()) && diagnostics == old(diagnostics) + [diagnostic.value]
      ensures diagnostics == Reported(old(diagnostics), [diagnostic])
    {
      if diagnostic.None? {
        return Err(IllegalArgument(NULL_DIAGNOSTIC_MESSAGE));
      }
      diagnostics := diagnostics + [diagnostic.value];
      return Ok(());
    }

    /** The log in report order; reading it changes nothing. */
    method GetDiagnostics() returns (r: seq<D>)
      ensures r == diagnostics
    {
      r := diagnostics;
    }
  }

  /** The log left by reporting `reports` one after another into `log`: every
      non-null report, in order, after the existing entries. */
  function Reported<D>(log: seq<D>, reports: seq<Option<D>>): seq<D>
    decreases |reports|
  {
    if reports == [] then log
    else Reported(if reports[0].Some? then log + [reports[0].value] else log, reports[1..])
  }

  /** The non-null reports, in order. */
  function NonNull<D>(reports: seq<Option<D>>): seq<D>
  {
    if reports == [] then []
    else (if reports[0].Some? then [reports[0].value] else []) + NonNull(reports[1..])
  }

  /** Reporting never loses or reorders what is already in the log: the log
      after a series of reports is the old log followed by exactly the non-null
      reports, in report order. */
  lemma {:induction false} ReportedAppendsNonNull<D>(log: seq<D>, reports: seq<Option<D>>)
    ensures Reported(log, reports) == log + NonNull(reports)
    decreases |reports|
  {
    if reports != [] {
      var head: seq<D> := if reports[0].Some? then [reports[0].value] else [];
      assert log + head == (if reports[0].Some? then log + [reports[0].value] else log);
      assert NonNull(reports) == head + NonNull(reports[1..]);
      ReportedAppendsNonNull(log + head, reports[1..]);
      assert (log + head) + NonNull(reports[1..]) == log + (head + NonNull(reports[1..]));
    }
  }
}
