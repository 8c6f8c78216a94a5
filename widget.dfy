/**
 * The jQuery UI widget `ui.fileUploader`: the in-flight counter
 * `_filesInProgress`, the file-list dictionary `_fileList` with its statuses,
 * the display form of a file name and the placeholder substitution of the
 * error messages. Rendering of the list, page-leave guarding and strategy
 * selection are not modelled.
 */
module Widget {
  import opened Wrappers
  import opened Strings
  import opened Handler

  /** `_formatFileName`: a name over 33 characters keeps its first 19 and last 13 characters around `...`. */
  function FormatFileName(name: string): (r: string)
    ensures |name| <= 33 ==> r == name
    ensures |name| > 33 ==> |r| == 35 && r[..19] == name[..19] && r[19..22] == "..." && r[22..] == name[|name| - 13..]
    ensures |r| <= 35
  {
    if |name| > 33 then name[..19] + "..." + name[|name| - 13..] else name
  }

  /** The display form uses only characters of the name and `.`. */
  lemma FormatFileNameChars(name: string, c: char)
    requires c != '.' && c !in name
    ensures c !in FormatFileName(name)
  {
    if |name| > 33 {
      var r := FormatFileName(name);
      forall k | 0 <= k < |r| ensures r[k] != c {
        if k < 19 { assert r[k] == name[k]; }
        else if k >= 22 { assert r[k] == name[|name| - 13 + (k - 22)]; }
      }
    }
  }

  /**
   * What the messages are filled with: the templates (`options.messages`), the
   * allow-list, the formatted size limits and the file limit as text. The sizes
   * come from `_formatSize`, which is not modelled.
   */
  datatype MessageOptions = MessageOptions(
    messages: ErrorType -> string,
    allowedExtensions: seq<string>,
    sizeLimit: string,
    minSizeLimit: string,
    maxFilesDropped: string)

  const FileHead := "<b>"
  const FailedTail := "</b> could not be uploaded"
  const ExtensionMiddle := "</b> has invalid extension. Only "
  const ExtensionTail := " are allowed."
  const MaxFilesBefore := "You can upload maximum <b>"
  const MaxFilesAfter := "</b> files"

  /**
   * The templates the widget ships with, written around their placeholders:
   * `<b>{file}</b> has invalid extension. Only {extensions} are allowed.`,
   * `<b>{file}</b> could not be uploaded`, `No file selected` and
   * `You can upload maximum <b>{maxFilesDropped}</b> files`.
   */
  function DefaultMessage(code: ErrorType): string {
    match code
    case ExtensionError => FileHead + "{file}" + (ExtensionMiddle + "{extensions}" + ExtensionTail)
    case Exception => FileHead + "{file}" + FailedTail
    case Failure => FileHead + "{file}" + FailedTail
    case NoFile => "No file selected"
    case MaxFilesDropped => MaxFilesBefore + "{maxFilesDropped}" + MaxFilesAfter
  }

  /** One `parse(name, replacement)` call: a placeholder and the text that replaces it. */
  datatype Fill = Fill(placeholder: string, value: string)

  /** The `parse` calls in order, each replacing the first occurrence in the result of the one before. */
  function Parse(message: string, fills: seq<Fill>): string
    decreases |fills|
  {
    if fills == [] then message
    else Parse(ReplaceFirst(message, fills[0].placeholder, fills[0].value), fills[1..])
  }

  /** The four calls after `{file}`. */
  function LimitFills(opts: MessageOptions): seq<Fill> {
    [Fill("{extensions}", Join(opts.allowedExtensions, ", ")),
     Fill("{sizeLimit}", opts.sizeLimit),
     Fill("{minSizeLimit}", opts.minSizeLimit),
     Fill("{maxFilesDropped}", opts.maxFilesDropped)]
  }

  /** `{file}` is filled only when there is a file name. */
  function Fills(opts: MessageOptions, fileName: Option<string>): seq<Fill> {
    (if fileName.Some? then [Fill("{file}", FormatFileName(fileName.value))] else []) + LimitFills(opts)
  }

  /** `_getErrorMessage(code, fileName)`: the template of `code`, filled call by call. */
  function ErrorMessage(opts: MessageOptions, code: ErrorType, fileName: Option<string>): string {
    Parse(opts.messages(code), Fills(opts, fileName))
  }

  /** The four replacements after `{file}`. */
  function FillLimits(opts: MessageOptions, m: string): string {
    Parse(m, LimitFills(opts))
  }

  /** The replacements after `{file}`, written out one inside the other. */
  lemma FillLimitsInOrder(opts: MessageOptions, m: string)
    ensures FillLimits(opts, m)
         == ReplaceFirst(ReplaceFirst(ReplaceFirst(ReplaceFirst(m, "{extensions}", Join(opts.allowedExtensions, ", ")),
              "{sizeLimit}", opts.sizeLimit), "{minSizeLimit}", opts.minSizeLimit), "{maxFilesDropped}", opts.maxFilesDropped)
  {
    var f := LimitFills(opts);
    var m2 := ReplaceFirst(m, "{extensions}", Join(opts.allowedExtensions, ", "));
    var m3 := ReplaceFirst(m2, "{sizeLimit}", opts.sizeLimit);
    var m4 := ReplaceFirst(m3, "{minSizeLimit}", opts.minSizeLimit);
    var m5 := ReplaceFirst(m4, "{maxFilesDropped}", opts.maxFilesDropped);
    assert f[1..][0] == f[1] && f[1..][1..] == f[2..];
    assert f[2..][0] == f[2] && f[2..][1..] == f[3..];
    assert f[3..][0] == f[3] && f[3..][1..] == [];
    assert Parse(m, f) == Parse(m2, f[1..]);
    assert Parse(m2, f[1..]) == Parse(m3, f[2..]);
    assert Parse(m3, f[2..]) == Parse(m4, f[3..]);
    assert Parse(m4, f[3..]) == m5;
  }

  /** `{file}` first, when there is a name, then the other four. */
  lemma ErrorMessageInOrder(opts: MessageOptions, code: ErrorType, fileName: Option<string>)
    ensures ErrorMessage(opts, code, fileName)
         == FillLimits(opts, if fileName.Some? then ReplaceFirst(opts.messages(code), "{file}", FormatFileName(fileName.value))
                             else opts.messages(code))
  {
    var fills := Fills(opts, fileName);
    if fileName.Some? {
      assert fills[1..] == LimitFills(opts);
    } else {
      assert fills == LimitFills(opts);
    }
  }

  /** A placeholder cannot occur in a text without `{`. */
  lemma NoBraceNoPlaceholder(s: string, placeholder: string)
    requires |placeholder| > 0 && placeholder[0] == '{' && '{' !in s
    ensures forall i :: !OccursAt(s, placeholder, i)
  {
  }

  /** In a text whose only `{` opens `ph`, a placeholder can only occur where `ph` starts. */
  lemma PlaceholderOnlyAt(before: string, ph: string, after: string, p: string)
    requires '{' !in before && '{' !in after && |ph| > 0 && ph[0] == '{' && '{' !in ph[1..]
    requires |p| > 0 && p[0] == '{'
    ensures forall i :: OccursAt(before + ph + after, p, i) ==> i == |before|
  {
  }

  /** One differing character rules an occurrence out. */
  lemma MismatchAt(s: string, p: string, i: nat, k: nat)
    requires k < |p| && i + k < |s| && s[i + k] != p[k]
    ensures !OccursAt(s, p, i)
  {
  }

  /** In a text whose only `{` opens `ph`, a placeholder that differs from `ph` at position `k` does not occur. */
  lemma OtherPlaceholderAbsent(before: string, ph: string, after: string, p: string, k: nat)
    requires '{' !in before && '{' !in after && |ph| > 0 && ph[0] == '{' && '{' !in ph[1..]
    requires |p| > 0 && p[0] == '{' && k < |p| && k < |ph| && p[k] != ph[k]
    ensures forall i :: !OccursAt(before + ph + after, p, i)
  {
    var m := before + ph + after;
    PlaceholderOnlyAt(before, ph, after, p);
    assert m[|before| + k] == ph[k];
    MismatchAt(m, p, |before|, k);
  }

  /** Filling a text without `{` leaves it as it is. */
  lemma FillWithoutPlaceholders(opts: MessageOptions, code: ErrorType)
    requires '{' !in opts.messages(code)
    ensures ErrorMessage(opts, code, None) == opts.messages(code)
  {
    var m := opts.messages(code);
    ErrorMessageInOrder(opts, code, None);
    FillLimitsInOrder(opts, m);
    NoBraceNoPlaceholder(m, "{extensions}");
    NoBraceNoPlaceholder(m, "{sizeLimit}");
    NoBraceNoPlaceholder(m, "{minSizeLimit}");
    NoBraceNoPlaceholder(m, "{maxFilesDropped}");
  }

  /** A placeholder is replaced where it first occurs when no `{` precedes it. */
  lemma ReplaceBraceFirst(before: string, placeholder: string, after: string, replacement: string)
    requires '{' !in before && |placeholder| > 0 && placeholder[0] == '{' && '$' !in replacement
    ensures ReplaceFirst(before + placeholder + after, placeholder, replacement) == before + replacement + after
  {
    ReplaceFirstAt(before, placeholder, after, replacement);
  }

  /** A placeholder that does not occur is not replaced. */
  lemma SkipAbsent(s: string, placeholder: string, replacement: string)
    requires forall i :: !OccursAt(s, placeholder, i)
    ensures ReplaceFirst(s, placeholder, replacement) == s
  {
  }

  /** Filling a filled-in text without `{` leaves it as it is. */
  lemma RestWithoutPlaceholders(opts: MessageOptions, m: string)
    requires '{' !in m
    ensures FillLimits(opts, m) == m
  {
    FillLimitsInOrder(opts, m);
    NoBraceNoPlaceholder(m, "{extensions}");
    NoBraceNoPlaceholder(m, "{sizeLimit}");
    NoBraceNoPlaceholder(m, "{minSizeLimit}");
    NoBraceNoPlaceholder(m, "{maxFilesDropped}");
  }

  /** A text none of the four later placeholders occurs in is left as it is. */
  lemma FillLimitsSkips(opts: MessageOptions, m: string)
    requires forall i :: !OccursAt(m, "{extensions}", i)
    requires forall i :: !OccursAt(m, "{sizeLimit}", i)
    requires forall i :: !OccursAt(m, "{minSizeLimit}", i)
    requires forall i :: !OccursAt(m, "{maxFilesDropped}", i)
    ensures FillLimits(opts, m) == m
  {
    FillLimitsInOrder(opts, m);
  }

  /**
   * A template with one `{file}` and no other `{`, filled for a name without
   * `{` or `$`, shows the name in its display form.
   */
  lemma FileOnlyMessage(opts: MessageOptions, code: ErrorType, head: string, tail: string, name: string)
    requires opts.messages(code) == head + "{file}" + tail
    requires '{' !in head && '{' !in tail && '{' !in name && '$' !in name
    ensures ErrorMessage(opts, code, Some(name)) == head + FormatFileName(name) + tail
  {
    var shown := FormatFileName(name);
    ErrorMessageInOrder(opts, code, Some(name));
    FormatFileNameChars(name, '{');
    FormatFileNameChars(name, '$');
    ReplaceBraceFirst(head, "{file}", tail, shown);
    RestWithoutPlaceholders(opts, head + shown + tail);
  }

  /** No `{` outside the placeholders of the default templates. */
  lemma TemplateTextsPlain()
    ensures '{' !in FileHead && '{' !in FailedTail && '{' !in ExtensionMiddle && '{' !in ExtensionTail
  {
  }

  /** The default `failure` and `exception` messages name the file. */
  lemma CouldNotBeUploadedMessage(opts: MessageOptions, code: ErrorType, name: string)
    requires opts.messages == DefaultMessage && (code == Failure || code == Exception)
    requires '{' !in name && '$' !in name
    ensures ErrorMessage(opts, code, Some(name)) == FileHead + FormatFileName(name) + FailedTail
  {
    TemplateTextsPlain();
    FileOnlyMessage(opts, code, FileHead, FailedTail, name);
  }

  /** The default `extensionError` message names the file and lists the allowed extensions. */
  lemma ExtensionErrorMessage(opts: MessageOptions, name: string)
    requires opts.messages == DefaultMessage
    requires '{' !in name && '$' !in name
    requires '{' !in Join(opts.allowedExtensions, ", ") && '$' !in Join(opts.allowedExtensions, ", ")
    ensures ErrorMessage(opts, ExtensionError, Some(name))
         == FileHead + FormatFileName(name) + ExtensionMiddle + Join(opts.allowedExtensions, ", ") + ExtensionTail
  {
    TemplateTextsPlain();
    ErrorMessageInOrder(opts, ExtensionError, Some(name));
    ExtensionTemplateFilled(opts, opts.messages(ExtensionError), name);
  }

  /** Filling `<head>{file}<middle>{extensions}<tail>` for a name and a list without `{` or `$`. */
  lemma ExtensionTemplateFilled(opts: MessageOptions, template: string, name: string)
    requires template == FileHead + "{file}" + (ExtensionMiddle + "{extensions}" + ExtensionTail)
    requires '{' !in FileHead && '{' !in ExtensionMiddle && '{' !in ExtensionTail
    requires '{' !in name && '$' !in name
    requires '{' !in Join(opts.allowedExtensions, ", ") && '$' !in Join(opts.allowedExtensions, ", ")
    ensures FillLimits(opts, ReplaceFirst(template, "{file}", FormatFileName(name)))
         == FileHead + FormatFileName(name) + ExtensionMiddle + Join(opts.allowedExtensions, ", ") + ExtensionTail
  {
    var shown := FormatFileName(name);
    FormatFileNameChars(name, '{');
    FormatFileNameChars(name, '$');
    ReplaceBraceFirst(FileHead, "{file}", ExtensionMiddle + "{extensions}" + ExtensionTail, shown);
    Regroup(FileHead, shown, ExtensionMiddle, "{extensions}", ExtensionTail);
    FillExtensions(opts, FileHead + shown + ExtensionMiddle, ExtensionTail);
  }

  /** Regrouping a concatenation of five texts, none of the first three holding `{`. */
  lemma Regroup(a: string, b: string, c: string, d: string, e: string)
    requires '{' !in a && '{' !in b && '{' !in c
    ensures a + b + (c + d + e) == a + b + c + d + e && '{' !in a + b + c
  {
  }

  /** A text whose only `{` opens `{extensions}` is filled with the joined list, for a list without `{` or `$`. */
  lemma FillExtensions(opts: MessageOptions, head: string, tail: string)
    requires '{' !in head && '{' !in tail
    requires '{' !in Join(opts.allowedExtensions, ", ") && '$' !in Join(opts.allowedExtensions, ", ")
    ensures FillLimits(opts, head + "{extensions}" + tail) == head + Join(opts.allowedExtensions, ", ") + tail
  {
    var list := Join(opts.allowedExtensions, ", ");
    FillLimitsInOrder(opts, head + "{extensions}" + tail);
    ReplaceBraceFirst(head, "{extensions}", tail, list);
    var filled := head + list + tail;
    assert '{' !in filled;
    NoBraceNoPlaceholder(filled, "{sizeLimit}");
    NoBraceNoPlaceholder(filled, "{minSizeLimit}");
    NoBraceNoPlaceholder(filled, "{maxFilesDropped}");
  }

  /**
   * The later replacements search the text that already holds the name, so a
   * file named `{sizeLimit}` is shown as the size limit text.
   */
  lemma PlaceholderInFileName(opts: MessageOptions)
    requires opts.messages == DefaultMessage && '{' !in opts.sizeLimit && '$' !in opts.sizeLimit
    ensures ErrorMessage(opts, Failure, Some("{sizeLimit}")) == FileHead + opts.sizeLimit + FailedTail
  {
    var ph := "{sizeLimit}";
    assert FormatFileName(ph) == ph;
    ErrorMessageInOrder(opts, Failure, Some(ph));
    TemplateTextsPlain();
    ReplaceBraceFirst(FileHead, "{file}", FailedTail, ph);
    SizeLimitFilled(opts, FileHead, FailedTail);
  }

  /** A text whose only `{` opens `{sizeLimit}` is filled with the size limit text, for a text without `{` or `$`. */
  lemma SizeLimitFilled(opts: MessageOptions, head: string, tail: string)
    requires '{' !in head && '{' !in tail && '{' !in opts.sizeLimit && '$' !in opts.sizeLimit
    ensures FillLimits(opts, head + "{sizeLimit}" + tail) == head + opts.sizeLimit + tail
  {
    FillLimitsInOrder(opts, head + "{sizeLimit}" + tail);
    SizeLimitSteps(opts, head, tail);
  }

  /** The four replacements after `{file}`, one by one, on such a text. */
  lemma SizeLimitSteps(opts: MessageOptions, head: string, tail: string)
    requires '{' !in head && '{' !in tail && '{' !in opts.sizeLimit && '$' !in opts.sizeLimit
    ensures var m, filled := head + "{sizeLimit}" + tail, head + opts.sizeLimit + tail;
      && ReplaceFirst(m, "{extensions}", Join(opts.allowedExtensions, ", ")) == m
      && ReplaceFirst(m, "{sizeLimit}", opts.sizeLimit) == filled
      && ReplaceFirst(filled, "{minSizeLimit}", opts.minSizeLimit) == filled
      && ReplaceFirst(filled, "{maxFilesDropped}", opts.maxFilesDropped) == filled
  {
    var ph := "{sizeLimit}";
    var m := head + ph + tail;
    var filled := head + opts.sizeLimit + tail;
    assert '{' !in ph[1..];
    OtherPlaceholderAbsent(head, ph, tail, "{extensions}", 1);
    SkipAbsent(m, "{extensions}", Join(opts.allowedExtensions, ", "));
    ReplaceBraceFirst(head, ph, tail, opts.sizeLimit);
    assert '{' !in filled;
    NoBraceNoPlaceholder(filled, "{minSizeLimit}");
    SkipAbsent(filled, "{minSizeLimit}", opts.minSizeLimit);
    NoBraceNoPlaceholder(filled, "{maxFilesDropped}");
    SkipAbsent(filled, "{maxFilesDropped}", opts.maxFilesDropped);
  }

  /** `$&` in a replacement stands for the matched text. */
  lemma DollarAmpersand(matched: string, before: string, after: string)
    ensures Substitution("a$&b", matched, before, after) == "a" + matched + "b"
  {
    assert Substitution("b", matched, before, after) == "b";
  }

  /** `<b>a{file}b</b> could not be uploaded` holds no placeholder the later replacements look for. */
  lemma FilledTwiceSkips(opts: MessageOptions)
    ensures FillLimits(opts, FileHead + "a" + "{file}" + "b" + FailedTail) == FileHead + "a" + "{file}" + "b" + FailedTail
  {
    TemplateTextsPlain();
    var before, ph, after := FileHead + "a", "{file}", "b" + FailedTail;
    var m := before + ph + after;
    assert '{' !in before && '{' !in after && '{' !in ph[1..];
    OtherPlaceholderAbsent(before, ph, after, "{extensions}", 1);
    OtherPlaceholderAbsent(before, ph, after, "{sizeLimit}", 1);
    OtherPlaceholderAbsent(before, ph, after, "{minSizeLimit}", 1);
    OtherPlaceholderAbsent(before, ph, after, "{maxFilesDropped}", 1);
    FillLimitsSkips(opts, m);
    assert m == FileHead + "a" + "{file}" + "b" + FailedTail;
  }

  /**
   * A `$&` in a file name is expanded by `replace` into the matched `{file}`:
   * the name `a$&b` is shown as `a{file}b`, that is `<b>a{file}b</b> could not be uploaded`.
   */
  lemma DollarInFileName(opts: MessageOptions)
    requires opts.messages == DefaultMessage
    ensures ErrorMessage(opts, Failure, Some("a$&b")) == FileHead + "a" + "{file}" + "b" + FailedTail
  {
    assert FormatFileName("a$&b") == "a$&b";
    ErrorMessageInOrder(opts, Failure, Some("a$&b"));
    DollarFileStep();
    FilledTwiceSkips(opts);
  }

  /** The `{file}` step for the name `a$&b`. */
  lemma DollarFileStep()
    ensures ReplaceFirst(DefaultMessage(Failure), "{file}", "a$&b") == FileHead + "a" + "{file}" + "b" + FailedTail
  {
    TemplateTextsPlain();
    ReplaceBraceFirstSplit(FileHead, "{file}", FailedTail, "a$&b");
    DollarAmpersand("{file}", FileHead, FailedTail);
    assert FileHead + ("a" + "{file}" + "b") + FailedTail == FileHead + "a" + "{file}" + "b" + FailedTail;
  }

  /** As `ReplaceBraceFirst`, for any replacement. */
  lemma ReplaceBraceFirstSplit(before: string, placeholder: string, after: string, replacement: string)
    requires '{' !in before && |placeholder| > 0 && placeholder[0] == '{'
    ensures ReplaceFirst(before + placeholder + after, placeholder, replacement)
         == before + Substitution(replacement, placeholder, before, after) + after
  {
    ReplaceFirstSplit(before, placeholder, after, replacement);
  }

  /** Placeholders absent from the template are skipped. */
  lemma FillOnlyMaxFiles(opts: MessageOptions, code: ErrorType)
    requires forall i :: !OccursAt(opts.messages(code), "{extensions}", i)
    requires forall i :: !OccursAt(opts.messages(code), "{sizeLimit}", i)
    requires forall i :: !OccursAt(opts.messages(code), "{minSizeLimit}", i)
    ensures ErrorMessage(opts, code, None) == ReplaceFirst(opts.messages(code), "{maxFilesDropped}", opts.maxFilesDropped)
  {
    ErrorMessageInOrder(opts, code, None);
    FillLimitsInOrder(opts, opts.messages(code));
  }

  /** The `noFile` message has no placeholder. */
  lemma NoFileMessage(opts: MessageOptions, fileName: Option<string>)
    requires opts.messages == DefaultMessage
    ensures ErrorMessage(opts, NoFile, fileName) == "No file selected"
  {
    var m := "No file selected";
    assert '{' !in m;
    NoBraceNoPlaceholder(m, "{file}");
    ErrorMessageInOrder(opts, NoFile, fileName);
    RestWithoutPlaceholders(opts, m);
  }

  /** No `{` outside the placeholder of the default `maxFilesDropped` template. */
  lemma MaxFilesTextsPlain()
    ensures '{' !in MaxFilesBefore && '{' !in MaxFilesAfter && '{' !in "{maxFilesDropped}"[1..]
  {
  }

  /** The default `maxFilesDropped` template holds `{maxFilesDropped}` and no other placeholder. */
  lemma MaxFilesTemplate()
    ensures forall i :: !OccursAt(DefaultMessage(MaxFilesDropped), "{extensions}", i)
    ensures forall i :: !OccursAt(DefaultMessage(MaxFilesDropped), "{sizeLimit}", i)
    ensures forall i :: !OccursAt(DefaultMessage(MaxFilesDropped), "{minSizeLimit}", i)
    ensures forall i :: 0 <= i < |MaxFilesBefore| ==> !OccursAt(DefaultMessage(MaxFilesDropped), "{maxFilesDropped}", i)
  {
    var before, ph, after := MaxFilesBefore, "{maxFilesDropped}", MaxFilesAfter;
    MaxFilesTextsPlain();
    assert ph[1] == 'm' && ph[2] == 'a' && "{extensions}"[2] == 'x' && "{sizeLimit}"[1] == 's' && "{minSizeLimit}"[2] == 'i';
    OtherPlaceholderAbsent(before, ph, after, "{extensions}", 2);
    OtherPlaceholderAbsent(before, ph, after, "{sizeLimit}", 1);
    OtherPlaceholderAbsent(before, ph, after, "{minSizeLimit}", 2);
    PlaceholderOnlyAt(before, ph, after, ph);
  }

  /** The `maxFilesDropped` message names the limit. */
  lemma MaxFilesMessage(opts: MessageOptions)
    requires opts.messages == DefaultMessage && '$' !in opts.maxFilesDropped
    ensures ErrorMessage(opts, MaxFilesDropped, None) == MaxFilesBefore + opts.maxFilesDropped + MaxFilesAfter
  {
    MaxFilesTemplate();
    FillOnlyMaxFiles(opts, MaxFilesDropped);
    ReplaceFirstAt(MaxFilesBefore, "{maxFilesDropped}", MaxFilesAfter, opts.maxFilesDropped);
  }

  datatype FileStatus = Loading | Success | Error

  /** An entry of `_fileList` (its `elem` is not modelled). */
  datatype FileEntry = FileEntry(name: string, status: FileStatus)

  /** An error of a batch with the `message` the widget adds to it. */
  datatype ReportedError = ReportedError(error: ErrorRecord, message: string)

  /** `_filesInProgress--` followed by the floor at zero. */
  function Decrement(n: int): int {
    if n - 1 < 0 then 0 else n - 1
  }

  /** The error list mentions the id. */
  predicate Mentions(errors: seq<ErrorRecord>, id: nat) {
    exists i :: 0 <= i < |errors| && errors[i].id == Some(id)
  }

  /** The file list after `_onError` marks the entries its errors name. */
  function MarkFailed(list: map<nat, FileEntry>, errors: seq<ErrorRecord>): map<nat, FileEntry> {
    if errors == [] then list
    else MarkOne(MarkFailed(list, errors[..|errors| - 1]), errors[|errors| - 1])
  }

  /** The entry one error names, if listed, becomes `error`. */
  function MarkOne(list: map<nat, FileEntry>, e: ErrorRecord): map<nat, FileEntry> {
    if e.id.Some? && e.id.value in list then list[e.id.value := list[e.id.value].(status := Error)] else list
  }

  /** Marking keeps the entries and their names; an entry ends as `error` exactly when some error names it. */
  lemma {:induction false} MarkFailedEffect(list: map<nat, FileEntry>, errors: seq<ErrorRecord>, id: nat)
    ensures id in MarkFailed(list, errors) <==> id in list
    ensures id in list ==>
              MarkFailed(list, errors)[id] == if Mentions(errors, id) then list[id].(status := Error) else list[id]
  {
    if errors != [] {
      var init := errors[..|errors| - 1];
      MarkFailedEffect(list, init, id);
      assert Mentions(errors, id) <==> Mentions(init, id) || errors[|errors| - 1].id == Some(id) by {
        if Mentions(errors, id) && errors[|errors| - 1].id != Some(id) {
          var i :| 0 <= i < |errors| && errors[i].id == Some(id);
          assert init[i] == errors[i];
        }
        if Mentions(init, id) {
          var i :| 0 <= i < |init| && init[i].id == Some(id);
          assert errors[i] == init[i];
        }
      }
    }
  }

  /** Marking one more error. */
  lemma MarkFailedPush(list: map<nat, FileEntry>, errors: seq<ErrorRecord>, i: nat)
    requires i < |errors|
    ensures MarkFailed(list, errors[..i + 1]) == MarkOne(MarkFailed(list, errors[..i]), errors[i])
  {
    assert errors[..i + 1][..i] == errors[..i];
  }

  /** The message the widget attaches to an error. */
  function MessageFor(opts: MessageOptions, e: ErrorRecord): string {
    ErrorMessage(opts, e.errorType, e.fileName)
  }

  /** The batch `errors`, each with the text `message` gives it, in order. */
  function Annotate(errors: seq<ErrorRecord>, message: ErrorRecord -> string): seq<ReportedError> {
    if errors == [] then []
    else Annotate(errors[..|errors| - 1], message) + [ReportedError(errors[|errors| - 1], message(errors[|errors| - 1]))]
  }

  lemma {:induction false} AnnotateEach(errors: seq<ErrorRecord>, message: ErrorRecord -> string)
    ensures |Annotate(errors, message)| == |errors|
    ensures forall i :: 0 <= i < |errors| ==> Annotate(errors, message)[i] == ReportedError(errors[i], message(errors[i]))
  {
    if errors != [] {
      var init := errors[..|errors| - 1];
      AnnotateEach(init, message);
      assert forall i :: 0 <= i < |init| ==> init[i] == errors[i];
    }
  }

  /** The batch `errors`, each with its message, in order. */
  function Reported(opts: MessageOptions, errors: seq<ErrorRecord>): seq<ReportedError> {
    Annotate(errors, e => MessageFor(opts, e))
  }

  /** Each error of the batch is reported once, in its place, with its message. */
  lemma ReportedEach(opts: MessageOptions, errors: seq<ErrorRecord>, i: nat)
    requires i < |errors|
    ensures |Reported(opts, errors)| == |errors|
    ensures Reported(opts, errors)[i] == ReportedError(errors[i], MessageFor(opts, errors[i]))
  {
    AnnotateEach(errors, e => MessageFor(opts, e));
  }

  lemma ReportedPush(opts: MessageOptions, errors: seq<ErrorRecord>, i: nat)
    requires i < |errors|
    ensures Reported(opts, errors[..i + 1]) == Reported(opts, errors[..i]) + [ReportedError(errors[i], MessageFor(opts, errors[i]))]
  {
    assert errors[..i + 1][..i] == errors[..i];
  }

  class FileUploaderWidget {
    const messages: MessageOptions
    var filesInProgress: int
    var fileList: map<nat, FileEntry>

    /** The in-flight counter is never negative. */
    ghost predicate Valid()
      reads this
    {
      filesInProgress >= 0
    }

    constructor (messages: MessageOptions)
      ensures Valid() && this.messages == messages && filesInProgress == 0 && fileList == map[]
    {
      this.messages := messages;
      filesInProgress, fileList := 0, map[];
    }

    /** `_addToList(id, fileName)`: a fresh `loading` entry, replacing any entry under id. */
    method AddToList(id: nat, fileName: string)
      requires Valid()
      modifies this
      ensures Valid() && filesInProgress == old(filesInProgress)
      ensures fileList == old(fileList)[id := FileEntry(fileName, Loading)]
    {
      fileList := fileList[id := FileEntry(fileName, Loading)];
    }

    /** `_setFileStatus(id, status)`; `thrown` when there is no entry (the TypeError of `null.status`). */
    method SetFileStatus(id: nat, status: FileStatus) returns (thrown: bool)
      requires Valid()
      modifies this
      ensures Valid() && filesInProgress == old(filesInProgress)
      ensures thrown <==> id !in old(fileList)
      ensures fileList == if thrown then old(fileList) else old(fileList)[id := old(fileList)[id].(status := status)]
    {
      if id !in fileList {
        return true;
      }
      fileList := fileList[id := fileList[id].(status := status)];
      return false;
    }

    /** `_onBeforeSubmit`: count the file as in flight and list it; `allowed` is the integrator hook's verdict. */
    method OnBeforeSubmit(id: nat, fileName: string, allowed: bool) returns (ok: bool)
      requires Valid()
      modifies this
      ensures Valid() && ok == allowed
      ensures filesInProgress == old(filesInProgress) + 1
      ensures fileList == old(fileList)[id := FileEntry(fileName, Loading)]
    {
      filesInProgress := filesInProgress + 1;
      AddToList(id, fileName);
      ok := allowed;
    }

    /** `_onSuccess`: one file fewer in flight (never below zero), and its entry becomes `success`. */
    method OnSuccess(id: nat) returns (thrown: bool)
      requires Valid()
      modifies this
      ensures Valid() && filesInProgress == Decrement(old(filesInProgress))
      ensures thrown <==> id !in old(fileList)
      ensures fileList == if thrown then old(fileList) else old(fileList)[id := old(fileList)[id].(status := Success)]
    {
      filesInProgress := filesInProgress - 1;
      if filesInProgress < 0 {
        filesInProgress := 0;
      }
      thrown := SetFileStatus(id, Success);
    }

    /** The message for an error of kind `code`, filled in placeholder by placeholder. */
    method GetErrorMessage(code: ErrorType, fileName: Option<string>) returns (message: string)
      ensures message == ErrorMessage(messages, code, fileName)
    {
      message := messages.messages(code);
      if fileName.Some? {
        message := ReplaceFirst(message, "{file}", FormatFileName(fileName.value));
      }
      message := ReplaceFirst(message, "{extensions}", Join(messages.allowedExtensions, ", "));
      message := ReplaceFirst(message, "{sizeLimit}", messages.sizeLimit);
      message := ReplaceFirst(message, "{minSizeLimit}", messages.minSizeLimit);
      message := ReplaceFirst(message, "{maxFilesDropped}", messages.maxFilesDropped);
      ErrorMessageInOrder(messages, code, fileName);
      FillLimitsInOrder(messages, if fileName.Some? then ReplaceFirst(messages.messages(code), "{file}", FormatFileName(fileName.value))
                                  else messages.messages(code));
    }

    /**
     * `_onError` for one batch: nothing for an empty batch; otherwise one file
     * fewer in flight per error (never below zero), each listed file an error
     * names becomes `error`, and the batch is handed on with its messages.
     */
    method OnError(errors: seq<ErrorRecord>) returns (triggered: bool, reported: seq<ReportedError>)
      requires Valid()
      modifies this
      ensures Valid() && triggered == (|errors| > 0)
      ensures filesInProgress == if old(filesInProgress) - |errors| < 0 then 0 else old(filesInProgress) - |errors|
      ensures fileList == MarkFailed(old(fileList), errors)
      ensures triggered ==> reported == Reported(messages, errors)
    {
      if |errors| == 0 {
        return false, [];
      }
      reported := [];
      for i := 0 to |errors|
        invariant filesInProgress == if old(filesInProgress) - i < 0 then 0 else old(filesInProgress) - i
        invariant fileList == MarkFailed(old(fileList), errors[..i])
        invariant reported == Reported(messages, errors[..i])
      {
        var e := errors[i];
        MarkFailedPush(old(fileList), errors, i);
        ReportedPush(messages, errors, i);
        filesInProgress := filesInProgress - 1;
        if filesInProgress < 0 {
          filesInProgress := 0;
        }
        fileList := MarkOne(fileList, e);
        var message := GetErrorMessage(e.errorType, e.fileName);
        reported := reported + [ReportedError(e, message)];
      }
      assert errors[..|errors|] == errors;
      triggered := true;
    }
  }
}
