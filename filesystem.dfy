/**
 * The injected `fs` service, kept abstract: `open` hands out a fresh handle
 * id or fails, `close` releases a handle, and a ghost log records every open
 * and close in order. What a handle reads or writes is not modelled.
 */
module Filesystems {
  import opened Wrappers

  /** Identity of one opened file object. */
  type Handle = nat

  /** The error `fs.open` raises; its kind is the filesystem's business. */
  datatype IoError = IoError(reason: string)

  /** One call on the filesystem, as the log records it. */
  datatype Event =
    | Opened(handle: Handle, path: string, mode: Option<string>, encoding: string)
    | Closed(handle: Handle)

  /** The handles open after `e`, given those open before it. */
  function Step(open: set<Handle>, e: Event): set<Handle>
  {
    match e
    case Opened(h, _, _, _) => open + {h}
    case Closed(h) => open - {h}
  }

  /** The handles open after replaying `log`, oldest event first, from `open`. */
  function Replay(open: set<Handle>, log: seq<Event>): set<Handle>
    decreases |log|
  {
    if log == [] then open else Replay(Step(open, log[0]), log[1..])
  }

  /** Replaying two logs one after the other is replaying their concatenation. */
  lemma {:induction false} ReplayConcat(open: set<Handle>, a: seq<Event>, b: seq<Event>)
    ensures Replay(open, a + b) == Replay(Replay(open, a), b)
    decreases |a|
  {
    if a == [] {
      assert a + b == b;
    } else {
      assert (a + b)[0] == a[0];
      assert (a + b)[1..] == a[1..] + b;
      ReplayConcat(Step(open, a[0]), a[1..], b);
    }
  }

  /** Appending one event to the log applies that event to the open set. */
  lemma ReplayAppend(open: set<Handle>, log: seq<Event>, e: Event)
    ensures Replay(open, log + [e]) == Step(Replay(open, log), e)
  {
    ReplayConcat(open, log, [e]);
    assert [e][1..] == [];
  }

  /** `h` was never handed out by an open recorded in `log`. */
  predicate NeverIssued(log: seq<Event>, h: Handle)
  {
    forall e | e in log && e.Opened? :: e.handle != h
  }

  /** Number of times `h` is closed in `log`. */
  function CloseCount(log: seq<Event>, h: Handle): nat
  {
    if log == [] then 0 else (if log[0] == Closed(h) then 1 else 0) + CloseCount(log[1..], h)
  }

  /** Number of times `h` is opened in `log`. */
  function OpenCount(log: seq<Event>, h: Handle): nat
  {
    if log == [] then 0 else (if log[0].Opened? && log[0].handle == h then 1 else 0) + OpenCount(log[1..], h)
  }

  /** Counting events over a concatenation adds the counts of the parts. */
  lemma {:induction false} CountConcat(a: seq<Event>, b: seq<Event>, h: Handle)
    ensures OpenCount(a + b, h) == OpenCount(a, h) + OpenCount(b, h)
    ensures CloseCount(a + b, h) == CloseCount(a, h) + CloseCount(b, h)
    decreases |a|
  {
    if a == [] {
      assert a + b == b;
    } else {
      assert (a + b)[0] == a[0];
      assert (a + b)[1..] == a[1..] + b;
      CountConcat(a[1..], b, h);
    }
  }

  /** An abstract filesystem with the calls the `file` context processor makes. */
  class Filesystem {
    /** Handles opened and not yet closed. */
    var openHandles: set<Handle>
    /** The id the next successful open hands out. */
    var nextHandle: Handle
    /** Every open and close, oldest first. */
    ghost var log: seq<Event>

    /** The open set is what the log leaves open, and every id handed out is below nextHandle. */
    ghost predicate Valid()
      reads this
    {
      && openHandles == Replay({}, log)
      && (forall h | h in openHandles :: h < nextHandle)
      && (forall e | e in log && e.Opened? :: e.handle < nextHandle)
    }

    constructor ()
      ensures Valid() && log == [] && openHandles == {}
    {
      openHandles := {};
      nextHandle := 0;
      log := [];
    }

    /**
     * fs.open(path, mode, encoding=encoding): fails with `failure` when the
     * environment supplies one; otherwise opens a handle never handed out before.
     */
    method Open(path: string, mode: Option<string>, encoding: string, failure: Option<IoError>)
      returns (r: Result<Handle, IoError>)
      requires Valid()
      modifies this
      ensures Valid()
      ensures failure.Some? ==> r == Err(failure.value) && unchanged(this)
      ensures failure.None? ==> r.Ok?
      ensures r.Ok? ==> r.value !in old(openHandles)
      ensures r.Ok? ==> NeverIssued(old(log), r.value)
      ensures r.Ok? ==> openHandles == old(openHandles) + {r.value}
      ensures r.Ok? ==> log == old(log) + [Opened(r.value, path, mode, encoding)]
    {
      if failure.Some? {
        return Err(failure.value);
      }
      var h := nextHandle;
      ReplayAppend({}, log, Opened(h, path, mode, encoding));
      openHandles := openHandles + {h};
      log := log + [Opened(h, path, mode, encoding)];
      nextHandle := nextHandle + 1;
      r := Ok(h);
    }

    /** Closes `h`; closing a handle that is not open changes no open handle. */
    method Close(h: Handle)
      requires Valid()
      modifies this
      ensures Valid()
      ensures openHandles == old(openHandles) - {h}
      ensures log == old(log) + [Closed(h)]
      ensures nextHandle == old(nextHandle)
    {
      ReplayAppend({}, log, Closed(h));
      openHandles := openHandles - {h};
      log := log + [Closed(h)];
    }
  }
}
