# fileUploader upload bookkeeping, in Dafny

A model of the upload bookkeeping in the jQuery plugin `jquery.fileuploader.js`. This is the state the plugin keeps while files are validated, sent and completed. The model also covers the small string rules the plugin applies on the way.

- `wrappers.dfy`: **Wrappers**, the `Option` type (`None` stands for JavaScript `null`/`undefined`).
- `strings.dfy`: **Strings**, the JavaScript built-ins the core relies on, with their edge cases:
  - `s.replace(/.*[D]/, '')`: leftmost, greedy, and `.` does not cross a line terminator.
  - `indexOf`.
  - `String.replace` with a string pattern: first occurrence only, with `$$`, `$&`, `` $` `` and `$'` expanded in the replacement.
  - `join`, and `toLowerCase` on ASCII letters.
- `handler.dfy`: **Handler**, `fh.AbstractHandler`:
  - The entities: error records, completed requests, options, and the `maxFilesDropped` setting (a number or a per-batch function).
  - The pending table `_xhrs`: a JavaScript array indexed by id whose entries are a live marker or `null`. Writing past the end leaves holes.
  - `HandlerState`, the pure step function of each operation, and the lemmas about them.
  - The class `UploadHandler`. It has the id counter, the pending table, the error list and the completed-requests list as fields, plus a trace of the hook calls (`onInit`, `onProgress`, `onSuccess`, `onComplete`, `onError`). Each method is proved to move the state exactly as its step function says.
- `legacy.dfy`: **Legacy**, `fh.LegacyUploadHandler`. The ajaxForm callbacks `beforeSubmit`, `success` and `error` act on the shared table through the `id` / `fileName` variables they share.
- `xhr.dfy`: **Xhr**, `fh.XHRUploadHandler`:
  - The drop loop of `_onDrop`.
  - The pre-check of `_upload` and the URL it builds, including the `?` / `''` / `&` separator.
  - The ready-state completion.
- `widget.dfy`: **Widget**, `ui.fileUploader`:
  - The in-flight counter `_filesInProgress`, floored at zero.
  - The `_fileList` dictionary of names and statuses.
  - `_formatFileName`.
  - The placeholder substitution of `_getErrorMessage`.

User hooks are inputs to the model, not calls:
- **Handler hooks** (`onBeforeSubmit`) are an `Option<bool>`. `None` means no hook is set, which `_trigger` treats as `true`.
- **Widget hooks** (`onBeforeSubmit`, `onDrop`) are a `bool`.
- **`maxFilesDropped`** as a function is a Dafny function value.
- **`$.parseJSON`** appears as its result: a response with an optional status, or `None` when parsing throws, in which case the code keeps `{}`.
- **`$.param`** is an opaque encoding of the parameter map.

The loose comparison `result.status == successStatus` is modelled as equality of `Option<string>`. That makes `null` and `undefined` equal, as `==` does.

There are two consequences of the code as written that the lemmas make explicit.
- **Split batches.** When the first file of a drop is refused while nothing else is pending, a batch is flushed at once. That batch holds only the refused file, so the drop is reported in more than one `onComplete` / `onError` batch (`Xhr.RefusedFileFlushesAlone`).
- **`$` in file names.** A file name is inserted into a message with `String.replace`, which expands `$` patterns in it: the name `a$&b` is shown as `a{file}b` (`Widget.DollarInFileName`).
- **Placeholders in file names.** The later replacements search the text that already holds the file name, so a name that is itself a placeholder gets filled: a file named `{sizeLimit}` is shown as the size limit text (`Widget.PlaceholderInFileName`).
- **Names over several lines.** `.` in the regular expressions of `_getFileName` and `_isExtensionAllowed` does not match a line terminator, so only the first line is stripped: `a/b` + line feed + `c/d` becomes `b` + line feed + `c/d`, which still holds a `/` (`Handler.GetFileNameKeepsLaterLines`).

## Model

| member | source | states |
|---|---|---|
| Strings.LeftmostGreedyMatch | jquery.fileuploader.js:56 | `None` exactly when no match exists (`.*` cannot cross a line terminator); otherwise the match starts at the leftmost possible index and ends at the last delimiter reachable from there |
| Strings.StripThroughLast | jquery.fileuploader.js:56 | the replacement never lengthens the text, and leaves a text without delimiters unchanged |
| Strings.StripSingleLine | jquery.fileuploader.js:56 | on one line, what remains is a suffix with no delimiter, preceded by a delimiter unless it is the whole text |
| Strings.SameShapeSameMatch | jquery.fileuploader.js:61 | the regular expression matches at the same place in two texts with the same delimiters and line terminators |
| Strings.StripCommutesWithLower | jquery.fileuploader.js:61 | stripping then lowercasing equals lowercasing then stripping, when lowercasing keeps the delimiters |
| Strings.LowerString | jquery.fileuploader.js:61 | `toLowerCase` keeps the length and lowercases each character |
| Strings.IndexOf | jquery.fileuploader.js:673 | the result is an occurrence with none before it, and `None` means no occurrence at all |
| Strings.SubstitutionLiteral | jquery.fileuploader.js:673 | a replacement without `$` is inserted as it is |
| Strings.ReplaceFirst | jquery.fileuploader.js:673 | `replace` without an occurrence returns the text unchanged |
| Strings.ReplaceFirstSplit | jquery.fileuploader.js:673 | only the first occurrence is replaced (with `$` patterns expanded); later occurrences stay |
| Strings.ReplaceFirstAt | jquery.fileuploader.js:673 | the first occurrence is replaced by a `$`-free replacement verbatim; later occurrences stay |
| Strings.Join | jquery.fileuploader.js:681 | `join` of no entries is `''`, of one entry is that entry |
| Handler.GetFileName | jquery.fileuploader.js:55-57 | `_getFileName`: the path with the leftmost-greedy match of `.*(\/|\\)` removed |
| Handler.ExtensionOf | jquery.fileuploader.js:61 | the extension `_isExtensionAllowed` compares: the lowercased name with the match of `.*[.]` removed, `''` when it has no `.` |
| Handler.GetFileNameWithoutSeparator | jquery.fileuploader.js:55-57 | a name with no `/` or `\` is returned unchanged |
| Handler.GetFileNameIsBaseName | jquery.fileuploader.js:55-57 | for a one-line name, the result is the suffix after the last `/` or `\`: it holds no separator, and a separator precedes it unless it is the whole name |
| Handler.GetFileNameKeepsLaterLines | jquery.fileuploader.js:55-57 | the path `a/b` + line feed + `c/d` gives `b` + line feed + `c/d`: only the first line is stripped |
| Handler.ExtensionAfterLastDot | jquery.fileuploader.js:61 | for a one-line name, the compared extension is the lowercased text after the last `.`, and `''` for a name without `.` |
| Handler.Listed | jquery.fileuploader.js:69-75 | the loop succeeds exactly when some entry, lowercased, equals the extension |
| Handler.IsExtensionAllowed | jquery.fileuploader.js:59-78 | true exactly when the list is empty or some lowercased entry equals the lowercased extension |
| Handler.ExtensionCheckIgnoresNameCase | jquery.fileuploader.js:61 | lowercasing the file name first does not change the verdict |
| Handler.ExtensionCheckIgnoresListCase | jquery.fileuploader.js:71 | lowercasing the allow-list first does not change the verdict |
| Handler.SetSlot | jquery.fileuploader.js:214 | `_xhrs[id] = v` sets that entry only; past the end the array grows to `id + 1` with holes in between |
| Handler.LiveCountZero | jquery.fileuploader.js:146-155 | no entry is counted exactly when every entry is `null` |
| Handler.LiveCountSetSlot | jquery.fileuploader.js:214-218 | setting one entry changes the live count by what was there and what is put there |
| Handler.MarkThenClear | jquery.fileuploader.js:214-218 | marking a fresh entry live and clearing it again leaves the live count as it was |
| Handler.RemainingXhrs | jquery.fileuploader.js:146-155 | the counting loop returns the number of non-null entries, which is 0 exactly when all are `null` |
| Handler.NextId | jquery.fileuploader.js:46-53 | `_getUniqueId`: the counter (undefined counting as 0) plus one becomes the new counter and the id |
| Handler.LimitFor | jquery.fileuploader.js:80-94 | the limit for a batch of n files: the fixed number, the per-batch function's value for n, or none when unset |
| Handler.RejectsBatch | jquery.fileuploader.js:80-94 | a batch is refused exactly when there is a limit and it is below n |
| Handler.MaxFilesStep | jquery.fileuploader.js:80-94 | `_calculateMaxFiles`: a refused batch appends one `maxFilesDropped` record, calls `onError` with the list and empties it; otherwise nothing changes |
| Handler.NextIdFresh | jquery.fileuploader.js:46-53 | each id is one more than the last, becomes the new counter, lies past every slot in use, and nothing else changes |
| Handler.FirstIdIsOne | jquery.fileuploader.js:46-53 | the first id is 1 |
| Handler.MaxFilesVerdict | jquery.fileuploader.js:80-94 | refused exactly when the (fixed or per-batch) limit is below the batch size; then `onError` gets the errors ending with one `maxFilesDropped` record with no id or name, and the list is emptied; otherwise nothing changes |
| Handler.Accepts | jquery.fileuploader.js:98-120 | `_onBeforeSubmit`'s verdict: a non-empty name, an allowed extension and a truthy (or absent) hook |
| Handler.BeforeSubmitErrors | jquery.fileuploader.js:102-112 | the records `_onBeforeSubmit` appends: an `extensionError` for a refused non-empty name, then a `noFile` for an empty one |
| Handler.BeforeSubmitStep | jquery.fileuploader.js:98-120 | `_onBeforeSubmit`: those records are appended, the hook is called, and the verdict is `Accepts` |
| Handler.ProgressStep | jquery.fileuploader.js:122-124 | `_onProgress`: one `onProgress` call with the id, name and byte counts is recorded |
| Handler.BeforeSubmitValidation | jquery.fileuploader.js:98-120 | empty name: exactly one `noFile` and no `extensionError`; refused extension: exactly one `extensionError`; accepted: no record; the verdict is name non-empty, extension allowed and hook truthy (absent = true); only the error list changes |
| Handler.StatusMatches | jquery.fileuploader.js:127 | the loose `result.status == successStatus`, an absent status equal to an absent setting |
| Handler.SuccessStep | jquery.fileuploader.js:126-135 | `_onSuccess`: `onSuccess` on a matching status, otherwise one `failure` record with the id, name and result |
| Handler.SuccessExactlyOneOutcome | jquery.fileuploader.js:126-135 | exactly one of: `onSuccess` on a matching status, or one `failure` record with the same id, name and result |
| Handler.LiveCount | jquery.fileuploader.js:146-153 | the number of entries of `_xhrs` that are neither `null` nor holes |
| Handler.CompleteStep | jquery.fileuploader.js:137-162 | `_onComplete`: the request is appended; when no entry is live, `onComplete` and `onError` are called with the lists, which are then emptied |
| Handler.ErrorStep | jquery.fileuploader.js:164-171 | `_onError`: one record with the id, name, result and type is appended |
| Handler.CompleteBatching | jquery.fileuploader.js:137-162 | one entry is appended; the batch is flushed exactly when every entry of `_xhrs` is `null`, `onComplete` then `onError`, leaving both lists empty; without a flush errors and hook calls are unchanged |
| Handler.UploadHandler.constructor | jquery.fileuploader.js:5-27 | a handler starts with counter 0 and empty table and lists |
| Handler.UploadHandler.Init | jquery.fileuploader.js:31-33 | `init` calls `onInit` and changes nothing else |
| Handler.UploadHandler.GetUniqueId | jquery.fileuploader.js:46-53 | the counter moves as `NextId` says and the id is returned |
| Handler.UploadHandler.SetXhr | jquery.fileuploader.js:214 | the table is updated as `SetSlot` says |
| Handler.UploadHandler.CalculateMaxFiles | jquery.fileuploader.js:80-94 | the state and verdict are those of `MaxFilesStep` |
| Handler.UploadHandler.OnBeforeSubmit | jquery.fileuploader.js:98-120 | the state and verdict are those of `BeforeSubmitStep` |
| Handler.UploadHandler.OnProgress | jquery.fileuploader.js:122-124 | `onProgress` is called with the id, the name and the optional byte counts |
| Handler.UploadHandler.OnSuccess | jquery.fileuploader.js:126-135 | the state moves as `SuccessStep` says |
| Handler.UploadHandler.OnComplete | jquery.fileuploader.js:137-162 | the state moves as `CompleteStep` says, counting the live entries with `RemainingXhrs` |
| Handler.UploadHandler.OnError | jquery.fileuploader.js:164-171 | exactly one record is appended to the error list |
| Legacy.BeforeSubmitSpec | jquery.fileuploader.js:206-227 | `beforeSubmit`: the limit check, the next id, the shared id and name, the marked entry, the validation, then either clearing and completion with `{}` or progress without byte counts |
| Legacy.SuccessSpec | jquery.fileuploader.js:228-234 | `success`: the entry is cleared, then `_onSuccess` and `_onComplete` with the data |
| Legacy.ErrorSpec | jquery.fileuploader.js:235-250 | `error`: the entry is cleared, an `exception` record with the parsed body (or `{}`) is appended, then `_onComplete` |
| Legacy.SubmitTable | jquery.fileuploader.js:206-221 | over the limit: no id taken, table and shared id untouched; otherwise the next id is taken; an accepted file leaves its entry marked, a refused one leaves it cleared |
| Legacy.SubmitMarksPending | jquery.fileuploader.js:206-227 | an accepted submission gets the next id, marks exactly that fresh entry live, records no error and reports progress without byte counts |
| Legacy.SubmitRefusedLeavesNothingPending | jquery.fileuploader.js:206-221 | a refused submission leaves the live count as it was; past the limit check its entry is `null` again |
| Legacy.SubmitThenSuccessFlushes | jquery.fileuploader.js:206-234 | from a drained table, an accepted submission and its `success` drain the table and flush one batch ending with this request, `onComplete` before `onError` |
| Legacy.ErrorReportsException | jquery.fileuploader.js:235-250 | the entry is cleared and the `exception` record with the parsed body (or `{}`) ends the flushed `onError` batch when that entry was the last live one, and the error list otherwise |
| Legacy.LegacyUploadHandler.constructor | jquery.fileuploader.js:174-176 | a fresh handler with no submission yet |
| Legacy.LegacyUploadHandler.BeforeSubmit | jquery.fileuploader.js:206-227 | the state and verdict are those of `BeforeSubmitSpec` |
| Legacy.LegacyUploadHandler.Success | jquery.fileuploader.js:228-234 | the entry is cleared, then the success check, then completion |
| Legacy.LegacyUploadHandler.Error | jquery.fileuploader.js:235-250 | the entry is cleared, an `exception` with the parsed body (`{}` when it does not parse) is recorded, then completion |
| Xhr.UploadSpec | jquery.fileuploader.js:389-402 | `_upload` up to the send: the entry is marked, the file validated, and a refused file has its entry cleared and is completed with `{}` |
| Xhr.UploadOne | jquery.fileuploader.js:384-387 | one iteration of the drop loop: the next id, then `_upload` |
| Xhr.UploadAll | jquery.fileuploader.js:384-387 | the drop loop over the files in order |
| Xhr.DropSpec | jquery.fileuploader.js:370-388 | `_onDrop`: the limit check, then the `onDrop` verdict, then the loop |
| Xhr.ReadyStateSpec | jquery.fileuploader.js:413-429 | `onreadystatechange`: only state 4 clears the entry and runs `_onSuccess` and `_onComplete` with the parsed body or `{}` |
| Xhr.UploadUrl | jquery.fileuploader.js:432-437 | the URL: action, separator, then the encoded parameters with the file name under `inputName` |
| Xhr.QuerySeparator | jquery.fileuploader.js:436 | `?` exactly when the action has no `?`, `''` exactly when it ends with `?`, `&` otherwise; a `?` then always precedes the parameters |
| Xhr.UploadUrlShape | jquery.fileuploader.js:432-437 | the URL starts with the action and ends with the encoded parameters, which follow a `?` or `&`, with a `?` before them |
| Xhr.DropOverLimitStartsNothing | jquery.fileuploader.js:370-377 | a drop over the limit takes no id and touches no entry; only the error flush happens |
| Xhr.FourFilesOverLimitOfThree | jquery.fileuploader.js:370-377 | four files against a limit of 3 from a fresh handler: no id, empty table, one `onError` call with one `maxFilesDropped` record |
| Xhr.UploadOneTable | jquery.fileuploader.js:384-402 | one upload takes the next id; its entry is live exactly when the file is accepted; earlier entries are untouched |
| Xhr.UploadAllTable | jquery.fileuploader.js:384-387 | the drop loop gives the files consecutive ids in order; afterwards file k's entry is live exactly when file k was accepted, and earlier entries are untouched |
| Xhr.RefusedFileFlushesAlone | jquery.fileuploader.js:395-402 | a file refused while nothing is pending is completed and flushed at once, in a batch of its own |
| Xhr.ReadyStateCompletion | jquery.fileuploader.js:413-429 | ready state 4 clears the entry and flushes exactly when that was the last live entry; any other state changes nothing |
| Xhr.XhrUploadHandler.constructor | jquery.fileuploader.js:256-258 | a fresh handler with no files dropped |
| Xhr.XhrUploadHandler.Upload | jquery.fileuploader.js:390-437 | the state moves as `UploadSpec` says; the URL is returned exactly when the request is sent, and it is `UploadUrl` |
| Xhr.XhrUploadHandler.ReadyStateChange | jquery.fileuploader.js:413-429 | the state moves as `ReadyStateSpec` says |
| Xhr.XhrUploadHandler.Drop | jquery.fileuploader.js:370-388 | records the number of files; the state moves as `DropSpec` says (limit, `onDrop` hook, then one upload per file in order) |
| Widget.DefaultMessage | jquery.fileuploader.js:489-495 | the default message templates, one per error type |
| Widget.FormatFileName | jquery.fileuploader.js:777-784 | names of up to 33 characters unchanged; longer ones become the first 19, `...`, the last 13, for length 35 |
| Widget.FormatFileNameChars | jquery.fileuploader.js:777-784 | the display form adds no character other than `.` |
| Widget.Parse | jquery.fileuploader.js:671-674 | `parse`: each call replaces the first occurrence of its placeholder in the result of the one before |
| Widget.Fills | jquery.fileuploader.js:676-684 | the `parse` calls: `{file}` only for a non-null name, then the four others |
| Widget.ErrorMessage | jquery.fileuploader.js:667-687 | `_getErrorMessage`: the template of the code, filled by those calls in order |
| Widget.ErrorMessageInOrder | jquery.fileuploader.js:667-687 | `{file}` is replaced first and only when there is a file name, then `{extensions}`, `{sizeLimit}`, `{minSizeLimit}`, `{maxFilesDropped}` in that order |
| Widget.FillLimitsInOrder | jquery.fileuploader.js:681-684 | the four later replacements apply one after the other, in source order |
| Widget.FillWithoutPlaceholders | jquery.fileuploader.js:667-687 | a template without `{` and no file name gives the template itself |
| Widget.RestWithoutPlaceholders | jquery.fileuploader.js:681-684 | a text without `{` passes the four later replacements unchanged |
| Widget.FillLimitsSkips | jquery.fileuploader.js:681-684 | a text that holds none of the four later placeholders passes them unchanged |
| Widget.ReplaceBraceFirst | jquery.fileuploader.js:673 | a placeholder with no `{` before it is replaced where it stands |
| Widget.FileOnlyMessage | jquery.fileuploader.js:676-684 | a template with one `{file}` and no other `{`, for a name without `{` or `$`, shows the name in its display form |
| Widget.NoFileMessage | jquery.fileuploader.js:493 | the default `noFile` message is `No file selected`, with or without a name |
| Widget.CouldNotBeUploadedMessage | jquery.fileuploader.js:491-492 | for a name without `{` or `$`, the default `failure` / `exception` message is `<b>` + display name + `</b> could not be uploaded` |
| Widget.ExtensionTemplateFilled | jquery.fileuploader.js:678-681 | `{file}` then `{extensions}` in the `extensionError` template give the display name and the joined list in place |
| Widget.ExtensionErrorMessage | jquery.fileuploader.js:490 | for a name and an allow-list without `{` or `$`, the default `extensionError` message names the display name and the allowed extensions joined with `, ` |
| Widget.MaxFilesTemplate | jquery.fileuploader.js:494 | the default `maxFilesDropped` template holds no other placeholder and no earlier `{maxFilesDropped}` |
| Widget.MaxFilesMessage | jquery.fileuploader.js:684 | the default `maxFilesDropped` message is `You can upload maximum <b>` + limit + `</b> files` |
| Widget.PlaceholderInFileName | jquery.fileuploader.js:676-684 | under the default templates, a file named `{sizeLimit}` gives the `failure` message `<b>` + size limit + `</b> could not be uploaded`, for a size text without `{` or `$` |
| Widget.DollarAmpersand | jquery.fileuploader.js:673 | `$&` in a replacement stands for the matched text |
| Widget.DollarInFileName | jquery.fileuploader.js:673-678 | the name `a$&b` is shown as `a{file}b` in a `failure` message, since `replace` expands `$&` |
| Widget.Decrement | jquery.fileuploader.js:600-605 | `_filesInProgress--` followed by the floor at zero |
| Widget.MarkOne | jquery.fileuploader.js:626-636 | one error: the entry it names, when listed, becomes `error` |
| Widget.MarkFailed | jquery.fileuploader.js:624-639 | the batch: `MarkOne` for each error in order |
| Widget.Reported | jquery.fileuploader.js:638 | the batch with each error's message attached, in order |
| Widget.ReportedEach | jquery.fileuploader.js:624-639 | the reported batch has one entry per error, in order, each carrying that error and its message |
| Widget.MarkFailedEffect | jquery.fileuploader.js:624-639 | no entry is added or removed; an entry ends as `error` exactly when some error names its id, and is otherwise untouched |
| Widget.FileUploaderWidget.constructor | jquery.fileuploader.js:498-501 | no file in flight and an empty list |
| Widget.FileUploaderWidget.AddToList | jquery.fileuploader.js:702-709 | the id maps to a fresh `loading` entry with that name, replacing any earlier one |
| Widget.FileUploaderWidget.SetFileStatus | jquery.fileuploader.js:689-692 | the entry's status is set; a missing entry throws and changes nothing |
| Widget.FileUploaderWidget.OnBeforeSubmit | jquery.fileuploader.js:579-586 | one more file in flight, listed as `loading`; the verdict is the hook's |
| Widget.FileUploaderWidget.OnSuccess | jquery.fileuploader.js:596-609 | one file fewer in flight, never below zero; the entry becomes `success` (throws when missing) |
| Widget.FileUploaderWidget.GetErrorMessage | jquery.fileuploader.js:667-687 | the message computed replacement by replacement is `ErrorMessage` of the code and name |
| Widget.FileUploaderWidget.OnError | jquery.fileuploader.js:615-643 | nothing for an empty batch; otherwise the counter drops by the batch size, floored at zero, the named listed entries become `error`, and each error is handed on with its message |

## Left out

- DOM, CSS and rendering. This covers the `<li>` elements of `_addToList`, the `class` attribute set by `_setFileStatus`, and the form, button and input lookups of the legacy `init`, including its early `return false`. Only the id → {name, status} map is modelled.
- The transport. `XMLHttpRequest`, `ajaxForm`, request headers, `send` and upload progress events are network I/O. This includes the `X-File-Name` header, which reads the stray variable `name`.
- `_loaded` (byte counts per id). It is written at lines 404, 409 and 425 and never read, so it affects nothing the model keeps.
- Drag-and-drop handlers, `_isValidFileDrag`, user-agent sniffing, `_isXHRUploadSupported`, strategy selection in `_createUploadHandler`, and the `beforeunload` guard. These are browser events and environment probes.
- `_formatSize`. It uses floating-point division and `toFixed`. The size texts in messages are opaque strings.
- `$.parseJSON` and `$.param`. They are foreign calls and appear as inputs: a parsed response, and an encoding function.
- `toLowerCase` beyond ASCII letters. Strings are sequences of code points, not UTF-16 code units.
- Prototype-shared arrays. `_xhrs`, `_errors` and `_completedRequests` live on the prototype, so they alias across instances. A single handler instance is modelled.
- The widget's `_getUniqueId`. It is unused, and reads `.length` of an object.
- Widget `_trigger` calls. The calls carrying `onProgress`, `onDrop`, `onSuccess` and `onComplete` are outside the state the widget keeps; only their verdicts enter, as inputs.
- The `result !== undefined` guard of `_onSuccess`. Every call site passes a parsed object or `{}`, so the result is always defined. A parsed `null` body would throw there, and it is not modelled.
- Non-string `status` values. The integrator's `successStatus` and response status are strings or absent; numeric coercion under `==` is not modelled.
- `file.size` and the `file.fileName` fallback of `_upload`. The file name is an input, because `file.name !== null` holds for every real `File`.
- Persistent mutation of `options.params` in `_upload`. The code writes `params[inputName] = fileName` into the shared options object. Every later upload overwrites the same key, so the URL is the same as with the fresh map the model uses.
- `maxFilesDropped` set to `null`. JavaScript compares `null < n` as `0 < n`; the model has only a number, a function, or no setting (`undefined`, which never refuses).
- Legacy.LegacyUploadHandler.Success: requires a prior submission (a shared `id`), because ajaxForm calls `success` and `error` only after `beforeSubmit` returned true.
- Legacy.LegacyUploadHandler.Error: requires a prior submission, for the same reason.
- Widget.ErrorMessage: the `maxFilesDropped` option enters as the text of a numeric limit (`3` by default, which `replace` turns into `"3"`). A function-valued option, which `replace` would call with the matched `{maxFilesDropped}` and insert without `$` expansion, is not modelled.
- Xhr.XhrUploadHandler.Upload: requires an id already handed out, because `_upload` is only called from the drop loop with a fresh id.
- Handler.UploadHandler.SetXhr: requires an id already handed out, which every call site satisfies.
