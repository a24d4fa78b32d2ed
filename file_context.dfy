/**
 * FileHandler.open and the `file` context processor of
 * bonobo/nodes/io/base.py: per execution context, the file is opened once
 * from the bound options, the handle is yielded once, and the `with` block
 * closes it when the consumer resumes the processor, whether the consumer
 * finished normally or raised.
 */
module FileContexts {
  import opened Wrappers
  import opened IoBase
  import opened Filesystems

  /** How the node's processing logic left the context. */
  datatype Outcome = Completed | Raised(error: string)

  /** Where one context's `file` processor stands. */
  datatype Phase =
    | Unopened  // the processor has not started
    | Open      // suspended at the yield, holding an open handle
    | Closed    // resumed; the `with` block closed the handle
    | Failed    // fs.open raised: nothing was yielded and nothing is owed

  /**
   * FileHandler.open: forwards exactly the bound path, mode and encoding to
   * fs.open and returns what it returns.
   */
  method OpenFile(handler: FileHandler, fs: Filesystem, failure: Option<IoError>)
    returns (r: Result<Handle, IoError>)
    requires fs.Valid()
    modifies fs
    ensures fs.Valid()
    ensures failure.Some? ==> r == Err(failure.value) && unchanged(fs)
    ensures failure.None? ==> r.Ok?
    ensures r.Ok? ==> r.value !in old(fs.openHandles) && NeverIssued(old(fs.log), r.value)
    ensures r.Ok? ==> fs.openHandles == old(fs.openHandles) + {r.value}
    ensures r.Ok? ==> fs.log == old(fs.log) + [Opened(r.value, handler.path, handler.mode, handler.encoding)]
  {
    r := fs.Open(handler.path, handler.mode, handler.encoding, failure);
  }

  /** The `file` context processor of one FileHandler in one execution context. */
  class FileContext {
    const handler: FileHandler
    var phase: Phase
    /** The handle yielded to the consumer, held until teardown. */
    var file: Handle
    /** The filesystem `file` was opened on, the one teardown closes it on. */
    var filesystem: Filesystem?

    constructor (handler: FileHandler)
      requires handler.Valid()
      ensures this.handler == handler && phase == Unopened
    {
      this.handler := handler;
      phase := Unopened;
      file := 0;
      filesystem := null;
    }

    /**
     * Runs the processor up to its yield: opens the file through
     * FileHandler.open and yields the handle fs.open returned. When fs.open
     * raises, the error is what comes out, nothing is yielded and no close
     * will follow.
     */
    method Setup(fs: Filesystem, failure: Option<IoError>) returns (yielded: Result<Handle, IoError>)
      requires phase == Unopened && fs.Valid()
      modifies this, fs
      ensures fs.Valid()
      ensures failure.Some? ==> yielded == Err(failure.value) && phase == Failed && unchanged(fs)
      ensures failure.None? ==> yielded.Ok? && phase == Open && file == yielded.value && filesystem == fs
      ensures yielded.Ok? ==> file !in old(fs.openHandles) && NeverIssued(old(fs.log), file)
      ensures yielded.Ok? ==> fs.openHandles == old(fs.openHandles) + {file}
      ensures yielded.Ok? ==> fs.log == old(fs.log) + [Opened(file, handler.path, handler.mode, handler.encoding)]
    {
      yielded := OpenFile(handler, fs, failure);
      if yielded.Ok? {
        file := yielded.value;
        filesystem := fs;
        phase := Open;
      } else {
        phase := Failed;
      }
    }

    /**
     * Resumes the processor after the consumer is done: the `with` block
     * closes the held handle, on the filesystem it was opened on, whatever
     * `outcome` is, and an error the consumer raised propagates unchanged.
     */
    method Teardown(outcome: Outcome) returns (propagated: Outcome)
      requires phase == Open && filesystem != null && filesystem.Valid()
      modifies this`phase, filesystem
      ensures filesystem.Valid()
      ensures phase == Phase.Closed
      ensures filesystem.openHandles == old(filesystem.openHandles) - {file}
      ensures filesystem.log == old(filesystem.log) + [Event.Closed(file)]
      ensures propagated == outcome
    {
      filesystem.Close(file);
      phase := Phase.Closed;
      propagated := outcome;
    }
  }

  /** What one context did with the filesystem: the handler and the handle it acquired, if any. */
  datatype ContextRun = ContextRun(handler: FileHandler, acquired: Option<Handle>)

  /** The filesystem events one context produces. */
  function ContextEvents(run: ContextRun): seq<Event>
  {
    match run.acquired
    case None => []
    case Some(h) => [Opened(h, run.handler.path, run.handler.mode, run.handler.encoding), Event.Closed(h)]
  }

  /** The events of several contexts run one after the other. */
  function AllEvents(runs: seq<ContextRun>): seq<Event>
  {
    if runs == [] then [] else ContextEvents(runs[0]) + AllEvents(runs[1..])
  }

  /**
   * One execution context, driven the way the engine drives it: setup, the
   * consumer's turn (its `outcome` is an input), teardown. When fs.open fails
   * the context ends with that error and the filesystem is untouched;
   * otherwise the file is opened once and closed once whatever the consumer
   * did, and the consumer's outcome is what the context reports.
   */
  method RunContext(handler: FileHandler, fs: Filesystem, failure: Option<IoError>, outcome: Outcome)
    returns (acquired: Option<Handle>, r: Result<Outcome, IoError>)
    requires handler.Valid() && fs.Valid()
    modifies fs
    ensures fs.Valid()
    ensures failure.Some? ==> acquired == None && r == Err(failure.value) && unchanged(fs)
    ensures failure.None? ==> acquired.Some? && r == Ok(outcome)
    ensures acquired.Some? ==> acquired.value !in old(fs.openHandles) && NeverIssued(old(fs.log), acquired.value)
    ensures fs.openHandles == old(fs.openHandles)
    ensures fs.log == old(fs.log) + ContextEvents(ContextRun(handler, acquired))
  {
    var context := new FileContext(handler);
    var yielded := context.Setup(fs, failure);
    if yielded.Err? {
      return None, Err(yielded.error);
    }
    // The consumer works with the yielded handle here; only its outcome matters.
    var propagated := context.Teardown(outcome);
    acquired, r := Some(yielded.value), Ok(propagated);
  }

  /**
   * Contexts run one after the other, each opening a handle that was not
   * open when it started, leave open exactly what was open before them.
   */
  lemma {:induction false} ContextsLeaveNothingOpen(open: set<Handle>, runs: seq<ContextRun>)
    requires forall i | 0 <= i < |runs| && runs[i].acquired.Some? :: runs[i].acquired.value !in open
    ensures Replay(open, AllEvents(runs)) == open
    decreases |runs|
  {
    if runs != [] {
      var first := ContextEvents(runs[0]);
      ReplayConcat(open, first, AllEvents(runs[1..]));
      if runs[0].acquired.Some? {
        var h := runs[0].acquired.value;
        assert first[1..] == [Event.Closed(h)] && first[1..][1..] == [];
        assert Replay(open, first) == Replay(open + {h}, [Event.Closed(h)]) == open + {h} - {h};
      }
      ContextsLeaveNothingOpen(open, runs[1..]);
    }
  }

  /** A context opens and closes only its own handle, once each. */
  lemma ContextEventCounts(run: ContextRun, h: Handle)
    ensures OpenCount(ContextEvents(run), h) == (if run.acquired == Some(h) then 1 else 0)
    ensures CloseCount(ContextEvents(run), h) == (if run.acquired == Some(h) then 1 else 0)
  {
    if run.acquired.Some? {
      var a := run.acquired.value;
      var events := ContextEvents(run);
      assert events[1..] == [Event.Closed(a)] && events[1..][1..] == [];
      assert OpenCount(events[1..], h) == 0;
      assert CloseCount(events[1..], h) == if a == h then 1 else 0;
    }
  }

  /** Contexts none of which opened `h` neither open nor close it. */
  lemma {:induction false} ContextsWithoutHandle(runs: seq<ContextRun>, h: Handle)
    requires forall i | 0 <= i < |runs| :: runs[i].acquired != Some(h)
    ensures OpenCount(AllEvents(runs), h) == 0 && CloseCount(AllEvents(runs), h) == 0
    decreases |runs|
  {
    if runs != [] {
      CountConcat(ContextEvents(runs[0]), AllEvents(runs[1..]), h);
      ContextEventCounts(runs[0], h);
      ContextsWithoutHandle(runs[1..], h);
    }
  }

  /**
   * When every context opened a different handle (as a filesystem that never
   * reuses ids guarantees), each handle a context opened is opened exactly
   * once and closed exactly once over the whole run.
   */
  lemma {:induction false} EachHandleClosedOnce(runs: seq<ContextRun>, k: nat)
    requires forall i, j | 0 <= i < j < |runs| && runs[i].acquired.Some? :: runs[i].acquired != runs[j].acquired
    requires k < |runs| && runs[k].acquired.Some?
    ensures OpenCount(AllEvents(runs), runs[k].acquired.value) == 1
    ensures CloseCount(AllEvents(runs), runs[k].acquired.value) == 1
    decreases |runs|
  {
    var h := runs[k].acquired.value;
    CountConcat(ContextEvents(runs[0]), AllEvents(runs[1..]), h);
    ContextEventCounts(runs[0], h);
    if k == 0 {
      ContextsWithoutHandle(runs[1..], h);
    } else {
      EachHandleClosedOnce(runs[1..], k - 1);
    }
  }

  /**
   * Two contexts of one handler run one after the other on one filesystem:
   * when both open their file, they hold different handles, and the combined
   * log opens and closes each of them exactly once.
   */
  method SequentialContexts(handler: FileHandler, fs: Filesystem,
                            failure1: Option<IoError>, outcome1: Outcome,
                            failure2: Option<IoError>, outcome2: Outcome)
    returns (runs: seq<ContextRun>)
    requires handler.Valid() && fs.Valid()
    modifies fs
    ensures fs.Valid() && fs.openHandles == old(fs.openHandles)
    ensures |runs| == 2 && fs.log == old(fs.log) + AllEvents(runs)
    ensures runs[0].acquired.Some? <==> failure1.None?
    ensures runs[1].acquired.Some? <==> failure2.None?
    ensures runs[0].acquired.Some? && runs[1].acquired.Some? ==> runs[0].acquired != runs[1].acquired
    ensures forall k | 0 <= k < 2 && runs[k].acquired.Some? ::
      OpenCount(AllEvents(runs), runs[k].acquired.value) == 1 &&
      CloseCount(AllEvents(runs), runs[k].acquired.value) == 1
  {
    var acquired1, r1 := RunContext(handler, fs, failure1, outcome1);
    ghost var between := fs.log;
    var acquired2, r2 := RunContext(handler, fs, failure2, outcome2);
    runs := [ContextRun(handler, acquired1), ContextRun(handler, acquired2)];
    if acquired1.Some? {
      // the second handle was never issued before, and the first one was
      assert Opened(acquired1.value, handler.path, handler.mode, handler.encoding) in between;
    }
    assert runs[1..][1..] == [] && runs[1..][0] == runs[1];
    assert AllEvents(runs[1..]) == ContextEvents(runs[1]) + [];
    assert AllEvents(runs) == ContextEvents(runs[0]) + ContextEvents(runs[1]);
    forall k | 0 <= k < 2 && runs[k].acquired.Some?
      ensures OpenCount(AllEvents(runs), runs[k].acquired.value) == 1
      ensures CloseCount(AllEvents(runs), runs[k].acquired.value) == 1
    {
      EachHandleClosedOnce(runs, k);
    }
  }
}
