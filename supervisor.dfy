/** The restart loop of the script (main.py:236-243): main runs again after
    every `Exception` it raises, and the loop ends after the first run that
    returns. A KeyboardInterrupt or SystemExit is not an `Exception`: raised
    by main or by the one-second pause after a crash, it leaves the loop and
    the script without a further run. The loop never ends by itself if every
    run crashes; the model follows it over a finite trace of run outcomes. */
module Supervisor {
  import opened Json

  /** What one call of main, with the pause after it, does: raise an
      `Exception` (any failure to load, run the pool or write the output),
      return after writing `output`, or raise a BaseException that is not an
      `Exception` (Ctrl-C, sys.exit) in main or in the pause. */
  datatype Attempt = Crashed | Finished(output: seq<Value>) | Interrupted

  /** How the loop stands after the trace: main returned with its output,
      an interrupt ended the script with no output, or every run of the trace
      crashed and the loop is still restarting. */
  datatype Ending = Returned(output: seq<Value>) | Stopped | Restarting

  /** Runs main for each attempt in turn until one returns or is interrupted.
      `runs` is how many times main was called. No run starts after a run
      that returned or was interrupted, and only crashes lead to a restart. */
  method Supervise(attempts: seq<Attempt>) returns (runs: nat, ending: Ending)
    ensures runs <= |attempts|
    ensures forall j :: 0 <= j < runs - 1 ==> attempts[j] == Crashed
    ensures ending.Returned? <==>
      exists j :: 0 <= j < |attempts| && attempts[j].Finished? && forall k :: 0 <= k < j ==> attempts[k] == Crashed
    ensures ending == Stopped <==>
      exists j :: 0 <= j < |attempts| && attempts[j] == Interrupted && forall k :: 0 <= k < j ==> attempts[k] == Crashed
    ensures ending.Returned? ==> 0 < runs && attempts[runs - 1] == Finished(ending.output)
    ensures ending == Stopped ==> 0 < runs && attempts[runs - 1] == Interrupted
    ensures ending == Restarting ==> runs == |attempts| && forall j :: 0 <= j < |attempts| ==> attempts[j] == Crashed
  {
    runs, ending := 0, Restarting;
    while runs < |attempts|
      invariant runs <= |attempts|
      invariant forall j :: 0 <= j < runs ==> attempts[j] == Crashed
    {
      var attempt := attempts[runs];
      runs := runs + 1;
      if attempt.Finished? {
        ending := Returned(attempt.output);
        break;
      } else if attempt == Interrupted {
        ending := Stopped;
        break;
      }
    }
  }
}
