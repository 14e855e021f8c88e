/** The patcher's single error value: a category, a message, an optional
    cause (kept as the cause's displayed text) and a keyed context map. */
module Errors {
  import opened Wrappers

  datatype ErrorCategory = FileOperationError | ValidationError | PatchingError | PlatformError

  /** How a category is displayed. */
  function CategoryName(c: ErrorCategory): (s: string)
    ensures |s| > 0
  {
    match c
    case FileOperationError => "File Operation"
    case ValidationError => "Validation"
    case PatchingError => "Patching"
    case PlatformError => "Platform"
  }

  /** The four display names tell the categories apart. */
  lemma CategoryNamesDistinct(c: ErrorCategory, d: ErrorCategory)
    ensures CategoryName(c) == CategoryName(d) <==> c == d
  {
  }

  /** The closed set of values stored in an error's context. */
  datatype ContextValue = Text(text: string) | Number(number: int)

  datatype WowPatcherError = WowPatcherError(
    category: ErrorCategory,
    message: string,
    cause: Option<string>,
    context: map<string, ContextValue>)

  /** An error with no cause and an empty context. */
  function New(category: ErrorCategory, message: string): (e: WowPatcherError)
    ensures e.category == category && e.message == message
    ensures e.cause.None? && e.context == map[]
  {
    WowPatcherError(category, message, None, map[])
  }

  /** An error that wraps a cause (given by the text the cause displays as). */
  function Wrap(category: ErrorCategory, message: string, cause: string): (e: WowPatcherError)
    ensures e.category == category && e.message == message
    ensures e.cause == Some(cause) && e.context == map[]
  {
    WowPatcherError(category, message, Some(cause), map[])
  }

  /** Looks a key up in the context. */
  function GetContext(e: WowPatcherError, key: string): (r: Option<ContextValue>)
    ensures r.Some? <==> key in e.context
    ensures r.Some? ==> r.value == e.context[key]
  {
    if key in e.context then Some(e.context[key]) else None
  }

  /** Stores `value` under `key`, replacing an earlier value under that key. */
  function WithContext(e: WowPatcherError, key: string, value: ContextValue): (r: WowPatcherError)
    ensures GetContext(r, key) == Some(value)
    ensures forall k :: k != key ==> GetContext(r, k) == GetContext(e, k)
    ensures r.category == e.category && r.message == e.message && r.cause == e.cause
  {
    e.(context := e.context[key := value])
  }

  /** A later value under the same key wins. */
  lemma WithContextOverwrites(e: WowPatcherError, key: string, v1: ContextValue, v2: ContextValue)
    ensures WithContext(WithContext(e, key, v1), key, v2) == WithContext(e, key, v2)
  {
  }

  /** `[category] message`, followed by `: cause` exactly when a cause is present. */
  function Display(e: WowPatcherError): (s: string)
    ensures var head := "[" + CategoryName(e.category) + "] " + e.message;
      && (e.cause.None? ==> s == head)
      && (e.cause.Some? ==> s == head + ": " + e.cause.value)
  {
    var head := "[" + CategoryName(e.category) + "] " + e.message;
    match e.cause
    case None => head
    case Some(c) => head + ": " + c
  }

  /** A file error: wraps its cause and records the path and the platform
      (the platform name is the build target's operating system, an input here). */
  function NewFileError(message: string, cause: string, filePath: string, os: string): (e: WowPatcherError)
    ensures e.category == FileOperationError && e.message == message && e.cause == Some(cause)
    ensures GetContext(e, "file_path") == Some(Text(filePath))
    ensures GetContext(e, "platform") == Some(Text(os))
  {
    WithContext(WithContext(Wrap(FileOperationError, message, cause), "file_path", Text(filePath)), "platform", Text(os))
  }

  /** A validation error recording the offending field and value. */
  function NewValidationError(message: string, field: string, value: ContextValue): (e: WowPatcherError)
    ensures e.category == ValidationError && e.message == message && e.cause.None?
    ensures GetContext(e, "field") == Some(Text(field))
    ensures GetContext(e, "value") == Some(value)
  {
    WithContext(WithContext(New(ValidationError, message), "field", Text(field)), "value", value)
  }

  const PatchingSuggestion := "This may be an unsupported WoW version or a pre-patched executable"

  /** A patching error recording the pattern and a fixed suggestion. */
  function NewPatchingError(message: string, cause: string, pattern: string): (e: WowPatcherError)
    ensures e.category == PatchingError && e.message == message && e.cause == Some(cause)
    ensures GetContext(e, "pattern") == Some(Text(pattern))
    ensures GetContext(e, "suggestion") == Some(Text(PatchingSuggestion))
  {
    WithContext(WithContext(Wrap(PatchingError, message, cause), "pattern", Text(pattern)), "suggestion", Text(PatchingSuggestion))
  }

  /** A platform error recording the operation and the platform. */
  function NewPlatformError(message: string, cause: string, operation: string, os: string): (e: WowPatcherError)
    ensures e.category == PlatformError && e.message == message && e.cause == Some(cause)
    ensures GetContext(e, "operation") == Some(Text(operation))
    ensures GetContext(e, "platform") == Some(Text(os))
  {
    WithContext(WithContext(Wrap(PlatformError, message, cause), "operation", Text(operation)), "platform", Text(os))
  }
}
