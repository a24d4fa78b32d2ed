/**
 * The pure part of bonobo/nodes/io/base.py: the `filesystem_path` validator
 * and the options that `FileHandler` declares, bound from its constructor
 * arguments into an immutable record.
 */
module IoBase {
  import opened Wrappers

  /** Why constructing a FileHandler fails. */
  datatype BindError =
    | InvalidPath               // filesystem_path raised ValueError: the path is absolute
    | MissingOption(name: string)  // an option declared `required=True` received no value

  /** The character that makes a path absolute. */
  const RootSeparator: char := '/'

  /** Default of the `eol` option. */
  const DefaultEol: string := "\n"

  /** Default of the `encoding` option. */
  const DefaultEncoding: string := "utf-8"

  /** Python's `s.startswith(prefix)` for a string prefix. */
  predicate StartsWith(s: string, prefix: string)
  {
    prefix <= s
  }

  /**
   * filesystem_path: a path is accepted and returned as it is unless its
   * first character is the root separator; the empty path is accepted.
   */
  function FilesystemPath(path: string): (r: Result<string, BindError>)
    ensures r.Err? <==> |path| > 0 && path[0] == RootSeparator
    ensures r.Err? ==> r.error == InvalidPath
    ensures r.Ok? ==> r.value == path
  {
    if StartsWith(path, [RootSeparator]) then Err(InvalidPath) else Ok(path)
  }

  /** Validating a path the validator already accepted accepts it again, unchanged. */
  lemma FilesystemPathIdempotent(path: string)
    requires FilesystemPath(path).Ok?
    ensures FilesystemPath(FilesystemPath(path).value) == FilesystemPath(path)
  {
  }

  /**
   * The options a constructed FileHandler holds. The `fs` service is not
   * part of it: it is resolved by the runtime and passed to each context.
   */
  datatype FileHandler = FileHandler(
    path: string,          // required, positional, cast through filesystem_path
    eol: string,           // default "\n"
    mode: Option<string>,  // no default and not required: None when not supplied
    encoding: string)      // default "utf-8"
  {
    /** Every constructed FileHandler holds a path the validator accepts. */
    predicate Valid()
    {
      FilesystemPath(path) == Ok(path)
    }
  }

  /**
   * The values supplied for each option at construction, None when an option
   * was not supplied. `path` may have come positionally or by keyword.
   */
  datatype Arguments = Arguments(
    path: Option<string>,
    eol: Option<string>,
    mode: Option<string>,
    encoding: Option<string>)

  /**
   * Binding FileHandler's options: `path` must be supplied and is cast through
   * filesystem_path; `eol` and `encoding` fall back to their defaults; `mode`
   * stays absent when it is not supplied. Supplied values are kept as given.
   */
  function Construct(args: Arguments): (r: Result<FileHandler, BindError>)
    ensures args.path.None? ==> r == Err(MissingOption("path"))
    ensures args.path.Some? && |args.path.value| > 0 && args.path.value[0] == RootSeparator
      ==> r == Err(InvalidPath)
    ensures r.Ok? <==> args.path.Some? && FilesystemPath(args.path.value).Ok?
    ensures r.Ok? ==> r.value.Valid() && args.path == Some(r.value.path)
    ensures r.Ok? ==> r.value.mode == args.mode
    ensures r.Ok? && args.eol.None? ==> r.value.eol == DefaultEol
    ensures r.Ok? && args.eol.Some? ==> r.value.eol == args.eol.value
    ensures r.Ok? && args.encoding.None? ==> r.value.encoding == DefaultEncoding
    ensures r.Ok? && args.encoding.Some? ==> r.value.encoding == args.encoding.value
  {
    match args.path
    case None => Err(MissingOption("path"))
    case Some(raw) =>
      match FilesystemPath(raw)
      case Err(e) => Err(e)
      case Ok(path) =>
        Ok(FileHandler(path, args.eol.GetOr(DefaultEol), args.mode, args.encoding.GetOr(DefaultEncoding)))
  }

  /**
   * Every valid FileHandler is what construction gives back when each of its
   * own options is supplied explicitly.
   */
  lemma ConstructFromOwnOptions(handler: FileHandler)
    requires handler.Valid()
    ensures Construct(Arguments(Some(handler.path), Some(handler.eol), handler.mode, Some(handler.encoding)))
      == Ok(handler)
  {
  }
}
