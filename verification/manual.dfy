/**
 * The manual run as a whole: validate the start-up state, then work through
 * the backlog of links with the loop as written. A failing start-up check
 * ends the run before any name lookup, fetch or import and before the links
 * file is touched; an attempt that raises ends the run with the file
 * holding what the loop had left in the list at its last success.
 */
module Manual {
  import opened Lines
  import opened Startup
  import opened Pipeline
  import opened Backlog

  /** How the process ends: normally, with a start-up exception, or with the
      exception an attempt at a link raised. */
  datatype Exit = Finished | StartupFailed(error: StartupError) | LinkFailed(link: string)

  /** The manual run over the links file `file` (the file the links-path
      variable names) with the given environment, host and collaborator
      outcomes. */
  method ManualRun(env: map<string, string>, host: Host, file: BacklogFile, outcomes: nat -> LinkOutcome)
    returns (exit: Exit, calls: seq<Call>)
    modifies file
    ensures Validate(env, host).Failure? ==>
              && exit == StartupFailed(Validate(env, host).error)
              && calls == []
              && file.text == old(file.text)
    ensures Validate(env, host).Success? ==>
              var run := AliasedRun(Validate(env, host).value, outcomes, ReadLines(old(file.text)));
              && exit == (if run.result.Completed? then Finished else LinkFailed(run.result.link))
              && calls == run.calls
              && file.text == Concat(run.remaining)
              && ReadLines(file.text) == run.remaining
              && Sub(run.remaining, ReadLines(old(file.text)))
  {
    var validated := Validate(env, host);
    if validated.Failure? {
      return StartupFailed(validated.error), [];
    }
    var r; ghost var remaining, processed;
    r, calls, remaining, processed := ProcessBacklog(validated.value, file, outcomes);
    ReadLinesWellFormed(old(file.text));
    AliasedRunProperties(validated.value, outcomes, ReadLines(old(file.text)));
    exit := if r.Completed? then Finished else LinkFailed(r.link);
  }
}
