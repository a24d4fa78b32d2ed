# bonobo file handler: path validation, option binding and the per-context file lifecycle

This project models the core of `bonobo/nodes/io/base.py`, from the bonobo ETL
library. Bonobo is a pipeline engine. In it, a `FileHandler` is the base of the
nodes that read or write files. The file has three parts, and each one is
modelled:

- `filesystem_path` validates paths. It rejects an absolute path, meaning one
  whose first character is `/`, by raising `ValueError`. Every other string,
  including the empty string, is returned unchanged. This is
  `IoBase.FilesystemPath`; the raised error is the `InvalidPath` value.
- `FileHandler` declares five settings:
  - `path`: a required, positional option, cast through `filesystem_path`;
  - `eol`: an option with the default `"\n"`;
  - `mode`: an option with no default and not marked required; the model
    takes it as `None` when not supplied;
  - `encoding`: an option with the default `"utf-8"`;
  - `fs`: a service (the filesystem the runtime injects).
  `IoBase.FileHandler` is the immutable record of the bound options.
  `IoBase.Construct` binds the supplied arguments into that record.
- `FileHandler.open` and the `file` context processor handle the file's
  lifecycle:
  - `FileHandler.open` calls `fs.open(path, mode, encoding=encoding)`.
  - The `file` context processor opens the file once per execution context.
  - It yields the handle once.
  - Its `with` block closes the handle when the engine resumes the processor,
    whether the consumer finished normally or raised.
  This part is imperative:
  - `FileContexts.FileContext` is a class with a phase field
    (`Unopened`, `Open`, `Closed` or `Failed`) and the held handle. Its
    `Setup` and `Teardown` methods are the two halves of the generator around
    its `yield`. `Setup` records the filesystem it opened the file on, and
    `Teardown` closes the handle on that same filesystem.
  - `FileContexts.RunContext` drives one context end to end.
  - The injected filesystem is the abstract class `Filesystems.Filesystem`.
    Its `Open` returns a handle id that was never handed out before, or
    fails. Its `Close` releases a handle. A ghost log records every open and
    every close in order.
  - `Filesystems.Replay` reads the set of open handles back off the log. The
    filesystem's `Valid()` keeps that set equal to its real `openHandles`.

Whether `fs.open` fails is an input (`failure`), because the filesystem is a
foreign object. So is the consumer's outcome (`Completed` or `Raised`), because
the code between the yield and the resumption is not part of this file.

Modules:
- `wrappers.dfy`: `Option` and `Result`.
- `io_base.dfy`: the validator and the option binding. Pure.
- `filesystem.dfy`: the abstract filesystem and its event log.
- `file_context.dfy`: `FileHandler.open`, the context processor, and lemmas
  about a sequence of contexts.

## Model

| member | source | states |
|---|---|---|
| `IoBase.FilesystemPath` | bonobo/nodes/io/base.py:4-10 | fails with InvalidPath exactly when the path is non-empty and starts with `/`; otherwise succeeds and returns the path unchanged (the empty path is accepted) |
| `IoBase.FilesystemPathIdempotent` | bonobo/nodes/io/base.py:4-10 | validating an accepted path again succeeds with the same path |
| `IoBase.Construct` | bonobo/nodes/io/base.py:24-34 | missing `path` gives MissingOption("path"); an absolute `path` gives InvalidPath; success exactly when `path` is supplied and accepted, and then the stored path is the validator's output, `mode` is stored as supplied (absent if not supplied), `eol`/`encoding` are the supplied values or `"\n"`/`"utf-8"` |
| `IoBase.ConstructFromOwnOptions` | bonobo/nodes/io/base.py:24-34 | every handler with a valid path is what construction returns when each of its options is supplied explicitly: supplied values are stored as given |
| `Filesystems.Filesystem.Open` | bonobo/nodes/io/base.py:43 | the injected `fs.open`: on failure, returns the error and changes nothing; otherwise returns a handle that was never handed out before, adds it to the open set, and logs one Opened event carrying the path, mode and encoding it was given |
| `Filesystems.Filesystem.Close` | bonobo/nodes/io/base.py:39 | closing a file object: removes the handle from the open set and logs one Closed event |
| `FileContexts.OpenFile` | bonobo/nodes/io/base.py:42-43 | `FileHandler.open` forwards exactly the bound path, mode and encoding to `fs.open` and returns its result: either the logged Opened event carries those three values for a handle never handed out before, or the open failed and the filesystem is unchanged |
| `FileContexts.FileContext.constructor` | bonobo/nodes/io/base.py:37-38 | a context processor starts Unopened and holds a handler whose path the validator accepted |
| `FileContexts.FileContext.Setup` | bonobo/nodes/io/base.py:37-40 | runs the processor up to its yield. On success it yields the handle `fs.open` returned (one never handed out before), holds that handle together with the filesystem it came from, and moves to Open, with exactly one open logged. On failure nothing is yielded, nothing is logged, and the phase is Failed, so no teardown can follow |
| `FileContexts.FileContext.Teardown` | bonobo/nodes/io/base.py:39-40 | for ANY consumer outcome: closes exactly the held handle on the filesystem `Setup` opened it on (exactly one Closed event there, the handle leaves its open set), moves to Closed, and returns the consumer's outcome unchanged (the `with` block does not swallow the error); it can run only from Open, so at most once |
| `FileContexts.RunContext` | bonobo/nodes/io/base.py:37-43 | one context: if `fs.open` fails, the error is reported and the filesystem is unchanged. Otherwise the log grows by exactly [Opened(h, path, mode, encoding), Closed(h)] for a handle h never handed out before, whatever the consumer's outcome. The open set ends as it began, and the consumer's outcome is what the context reports |
| `FileContexts.ContextsLeaveNothingOpen` | bonobo/nodes/io/base.py:39-40 | any sequence of contexts, each opening a handle that was not already open, leaves exactly the original set of handles open |
| `FileContexts.ContextEventCounts` | bonobo/nodes/io/base.py:39-40 | one context opens and closes only its own handle, each exactly once, and touches no other handle |
| `FileContexts.EachHandleClosedOnce` | bonobo/nodes/io/base.py:39-40 | across a sequence of contexts with distinct handles, each handle a context opened is opened exactly once and closed exactly once in the combined log |
| `FileContexts.SequentialContexts` | bonobo/nodes/io/base.py:37-43 | two contexts run one after the other on one filesystem: the log grows by both contexts' events, the open set ends as it began, a context opens its file exactly when its `fs.open` succeeds, two contexts that both open hold different handles, and each such handle is opened once and closed once |
| `Filesystems.ReplayConcat` | bonobo/nodes/io/base.py:39-40 | the open set after two logs in sequence is the open set after their concatenation; this is what keeps the filesystem's open set in step with its log |

## Left out

- The `bonobo.config` machinery (`Configurable`, `Option`, `Service`, `ContextProcessor`) is not part of this model. It covers:
  - collecting descriptors across the class hierarchy;
  - mapping positional arguments to positional options;
  - rejecting unknown keywords and too many positional arguments;
  - reporting all missing options together;
  - resolving services and ordering several context processors.
  The model binds only the options this class declares. `path` may arrive positionally or by keyword; `IoBase.Arguments` just records whether it was supplied. MissingOption is modelled only for `path`, the one option marked `required=True`.
- IoBase.FilesystemPath: takes a string. The source's `str(path)` conversion of a non-string argument is not modelled.
- What a handle reads or writes, what `close` flushes, and how `eol` and `encoding` affect text are not modelled. This file only stores `eol` and passes `encoding` through.
- The consumer's own use of the handle between the yield and the resumption is not modelled, for example closing it itself or opening other files. Only its outcome is an input.
- A failing `close` is not modelled, because the code has no handling for it.
- Concurrency between execution contexts is not modelled. One context runs at a time, and the multi-context lemmas treat a sequence of contexts.
- The `ValueError` message text is not modelled; only the fact of failure is.
- `Reader` and `Writer` are empty classes in this file and are not modelled.
- The class docstring types `mode` as a string, and the option is declared with no default and without `required=`. The model takes `mode` as `Option<string>` and forwards `None` to `fs.open` when it is not supplied.
- Whether `bonobo.config` treats an option not marked `required` as required is not decided by this model (`bonobo.config` is not part of it). If it does, constructing a FileHandler without `mode` fails with a missing-option error, which `IoBase.Construct` does not produce.
