/**
 * The bookkeeping shared by both upload strategies (`fh.AbstractHandler`):
 * sequential ids, the extension allow-list, the per-batch file limit, the
 * before-submit validation and the success / complete / error batching over
 * the pending-request table `_xhrs`.
 *
 * The state is a `HandlerState` value; each operation is a step function on
 * it, and the class `UploadHandler` holds the same state in fields and proves
 * each of its methods against the step function.
 */
module Handler {
  import opened Wrappers
  import opened Strings

  /** What `_xhrs[id]` holds while a request is live: `1` for a form submission, the XMLHttpRequest for an XHR upload. */
  datatype Marker = FormSubmission | Request

  /** One entry of `_xhrs`: a live marker, or `null` / a hole (`None`). */
  type Slot = Option<Marker>

  /** A parsed response body, reduced to its `status` field; an absent or `null` status is `None`, and `{}` is `EmptyResult`. */
  datatype Response = Response(status: Option<string>)

  const EmptyResult := Response(None)

  datatype ErrorType = ExtensionError | NoFile | Failure | Exception | MaxFilesDropped

  /** An entry of `_errors`; `None` stands for `null`. */
  datatype ErrorRecord = ErrorRecord(id: Option<nat>, fileName: Option<string>, result: Option<Response>, errorType: ErrorType)

  /** An entry of `_completedRequests`. */
  datatype CompletedRequest = CompletedRequest(id: nat, fileName: string, result: Response)

  datatype ProgressData = ProgressData(loaded: nat, total: nat)

  /** A call the handler makes to one of the integrator's hooks (`_trigger`). */
  datatype Event =
    | Initialized
    | Progressed(id: nat, fileName: string, extra: Option<ProgressData>)
    | Succeeded(id: nat, fileName: string, result: Response)
    | Completed(requests: seq<CompletedRequest>)
    | Errored(errors: seq<ErrorRecord>)

  /** The `maxFilesDropped` option: a number, a function of the batch size, or not given. */
  datatype MaxFiles = Fixed(limit: int) | PerBatch(limitFor: nat -> int) | Unset

  datatype Options = Options(
    inputName: string,
    params: map<string, string>,
    action: string,
    allowedExtensions: seq<string>,
    successStatus: Option<string>,
    maxFilesDropped: MaxFiles)

  // ---------------------------------------------------------------- pure rules

  predicate IsPathSeparator(c: char) { c == '/' || c == '\\' }

  predicate IsDot(c: char) { c == '.' }

  /** `_getFileName`: `name.replace(/.*(\/|\\)/, "")`. */
  function GetFileName(path: string): string {
    assert PlainDelimiters(IsPathSeparator);
    StripThroughLast(path, IsPathSeparator)
  }

  /** A path with no separator is its own file name. */
  lemma GetFileNameWithoutSeparator(path: string)
    requires forall k :: 0 <= k < |path| ==> !IsPathSeparator(path[k])
    ensures GetFileName(path) == path
  {
  }

  /**
   * The file name of a one-line path is the text after its last `/` or `\`:
   * a suffix of the path with no separator, preceded by a separator unless it
   * is the whole path.
   */
  lemma GetFileNameIsBaseName(path: string)
    requires NoTerminatorBetween(path, 0, |path|)
    ensures var r := GetFileName(path);
      && r == path[|path| - |r|..]
      && (forall k :: 0 <= k < |r| ==> !IsPathSeparator(r[k]))
      && (|r| < |path| ==> IsPathSeparator(path[|path| - |r| - 1]))
  {
    StripSingleLine(path, IsPathSeparator);
  }

  /** The lowercased extension `_isExtensionAllowed` compares: the text after the last `.`, or `''` without a `.`. */
  function ExtensionOf(fileName: string): string {
    assert PlainDelimiters(IsDot);
    if '.' in fileName then LowerString(StripThroughLast(fileName, IsDot)) else ""
  }

  /** `.` does not cross a line feed: only the first line loses its directory part. */
  lemma GetFileNameKeepsLaterLines()
    ensures GetFileName("a/b\nc/d") == "b\nc/d"
  {
    var s := "a/b\nc/d";
    assert PlainDelimiters(IsPathSeparator);
    assert GreedyMatch(s, IsPathSeparator, 0, 1);
    var m := LeftmostGreedyMatch(s, IsPathSeparator);
    assert m.Some? && m.value.0 == 0;
    assert IsLineTerminator(s[3]) && !IsPathSeparator(s[2]);
    assert m.value.1 == 1 by {
      assert GreedyMatch(s, IsPathSeparator, 0, m.value.1);
    }
    assert s[2..] == "b\nc/d";
  }

  /** On one line, the extension is the lowercased text after the last `.`, and `''` when there is no `.`. */
  lemma ExtensionAfterLastDot(fileName: string)
    requires NoTerminatorBetween(fileName, 0, |fileName|)
    ensures '.' !in fileName ==> ExtensionOf(fileName) == ""
    ensures '.' in fileName ==> exists k :: (0 <= k < |fileName| && fileName[k] == '.'
      && ExtensionOf(fileName) == LowerString(fileName[k + 1..])
      && '.' !in fileName[k + 1..])
  {
    if '.' in fileName {
      StripSingleLine(fileName, IsDot);
      var r := StripThroughLast(fileName, IsDot);
      var k := |fileName| - |r| - 1;
      assert fileName[k + 1..] == r;
      assert '.' !in r by {
        forall m | 0 <= m < |r| ensures r[m] != '.' { assert !IsDot(r[m]); }
      }
    }
  }

  /** Some entry of the allow-list, lowercased, equals ext (the loop of `_isExtensionAllowed`). */
  function Listed(allowed: seq<string>, ext: string): (r: bool)
    ensures r <==> exists k :: 0 <= k < |allowed| && LowerString(allowed[k]) == ext
  {
    if allowed == [] then false
    else LowerString(allowed[0]) == ext || Listed(allowed[1..], ext)
  }

  /** `_isExtensionAllowed`: an empty list allows everything; otherwise some entry must match the extension, ignoring case. */
  function IsExtensionAllowed(allowed: seq<string>, fileName: string): (r: bool)
    ensures r <==> |allowed| == 0 || exists k :: 0 <= k < |allowed| && LowerString(allowed[k]) == ExtensionOf(fileName)
  {
    |allowed| == 0 || Listed(allowed, ExtensionOf(fileName))
  }

  lemma LowerIdempotent(s: string)
    ensures LowerString(LowerString(s)) == LowerString(s)
  {
  }

  /** The check ignores the case of the file name: lowercasing the name first changes nothing. */
  lemma ExtensionCheckIgnoresNameCase(allowed: seq<string>, fileName: string)
    ensures IsExtensionAllowed(allowed, LowerString(fileName)) == IsExtensionAllowed(allowed, fileName)
  {
    assert PlainDelimiters(IsDot);
    var lowered := LowerString(fileName);
    assert '.' in lowered <==> '.' in fileName by {
      forall k | 0 <= k < |fileName| ensures (lowered[k] == '.') == (fileName[k] == '.') {
        assert lowered[k] == Lower(fileName[k]);
      }
    }
    if '.' in fileName {
      StripCommutesWithLower(fileName, IsDot);
      LowerIdempotent(StripThroughLast(fileName, IsDot));
    }
  }

  /** The check ignores the case of the allow-list: lowercasing every entry first changes nothing. */
  lemma ExtensionCheckIgnoresListCase(allowed: seq<string>, fileName: string)
    ensures IsExtensionAllowed(seq(|allowed|, k requires 0 <= k < |allowed| => LowerString(allowed[k])), fileName)
         == IsExtensionAllowed(allowed, fileName)
  {
    var lowered := seq(|allowed|, k requires 0 <= k < |allowed| => LowerString(allowed[k]));
    forall k | 0 <= k < |allowed| ensures LowerString(lowered[k]) == LowerString(allowed[k]) {
      LowerIdempotent(allowed[k]);
    }
  }

  /** The limit `_calculateMaxFiles` compares with: the number, or the function applied to the batch size. */
  function LimitFor(maxFiles: MaxFiles, nFiles: nat): Option<int> {
    match maxFiles
    case Fixed(limit) => Some(limit)
    case PerBatch(limitFor) => Some(limitFor(nFiles))
    case Unset => None  // `undefined < nFiles` is false
  }

  predicate RejectsBatch(maxFiles: MaxFiles, nFiles: nat) {
    var limit := LimitFor(maxFiles, nFiles);
    limit.Some? && limit.value < nFiles
  }

  const MaxFilesRecord := ErrorRecord(None, None, None, MaxFilesDropped)

  /** The verdict of `_onBeforeSubmit`: a name, an allowed extension, and a truthy hook (an absent hook counts as true). */
  predicate Accepts(opts: Options, fileName: string, hook: Option<bool>) {
    fileName != "" && IsExtensionAllowed(opts.allowedExtensions, fileName) && hook.GetOr(true)
  }

  /** The errors `_onBeforeSubmit` records, in the order it records them. */
  function BeforeSubmitErrors(opts: Options, id: nat, fileName: string): seq<ErrorRecord> {
    (if fileName != "" && !IsExtensionAllowed(opts.allowedExtensions, fileName)
     then [ErrorRecord(Some(id), Some(fileName), None, ExtensionError)] else [])
    + (if fileName == "" then [ErrorRecord(Some(id), Some(fileName), None, NoFile)] else [])
  }

  /** The loose `result.status == successStatus`: `null` and `undefined` are equal, strings by content. */
  predicate StatusMatches(result: Response, successStatus: Option<string>) {
    result.status == successStatus
  }

  // ---------------------------------------------------------- the pending table

  /** `_xhrs[id] = v` on a JavaScript array: past the end the array grows, with holes before id. */
  function SetSlot(xhrs: seq<Slot>, id: nat, v: Slot): (r: seq<Slot>)
    ensures |r| == if id < |xhrs| then |xhrs| else id + 1
    ensures r[id] == v
    ensures forall k :: 0 <= k < |r| && k != id ==> r[k] == if k < |xhrs| then xhrs[k] else None
  {
    if id < |xhrs| then xhrs[id := v] else xhrs + seq(id - |xhrs|, _ => None) + [v]
  }

  /** The number of non-null entries of `_xhrs` (`remainingXhrs`). */
  function LiveCount(xhrs: seq<Slot>): nat {
    if xhrs == [] then 0
    else LiveCount(xhrs[..|xhrs| - 1]) + (if xhrs[|xhrs| - 1].Some? then 1 else 0)
  }

  /** No request is pending exactly when every entry is null. */
  lemma {:induction false} LiveCountZero(xhrs: seq<Slot>)
    ensures LiveCount(xhrs) == 0 <==> forall k :: 0 <= k < |xhrs| ==> xhrs[k].None?
  {
    if xhrs != [] {
      var init := xhrs[..|xhrs| - 1];
      LiveCountZero(init);
      assert forall k :: 0 <= k < |init| ==> init[k] == xhrs[k];
    }
  }

  lemma {:induction false} LiveCountUpdate(xhrs: seq<Slot>, id: nat, v: Slot)
    requires id < |xhrs|
    ensures LiveCount(xhrs[id := v]) + (if xhrs[id].Some? then 1 else 0) == LiveCount(xhrs) + (if v.Some? then 1 else 0)
  {
    var n := |xhrs|;
    var u := xhrs[id := v];
    if id == n - 1 {
      assert u[..n - 1] == xhrs[..n - 1];
    } else {
      assert u[..n - 1] == xhrs[..n - 1][id := v];
      LiveCountUpdate(xhrs[..n - 1], id, v);
    }
  }

  lemma {:induction false} LiveCountPadded(xhrs: seq<Slot>, n: nat)
    ensures LiveCount(xhrs + seq(n, _ => None)) == LiveCount(xhrs)
  {
    var padded: seq<Slot> := xhrs + seq(n, _ => None);
    if n == 0 {
      assert padded == xhrs;
    } else {
      assert padded[..|padded| - 1] == xhrs + seq(n - 1, _ => None);
      LiveCountPadded(xhrs, n - 1);
    }
  }

  /** Setting one entry changes the number of live entries by what was there and what is put there. */
  lemma LiveCountSetSlot(xhrs: seq<Slot>, id: nat, v: Slot)
    ensures LiveCount(SetSlot(xhrs, id, v)) + (if id < |xhrs| && xhrs[id].Some? then 1 else 0)
         == LiveCount(xhrs) + (if v.Some? then 1 else 0)
  {
    if id < |xhrs| {
      LiveCountUpdate(xhrs, id, v);
    } else {
      var padded: seq<Slot> := xhrs + seq(id - |xhrs|, _ => None);
      var r := SetSlot(xhrs, id, v);
      assert r == padded + [v];
      assert r[..|r| - 1] == padded;
      LiveCountPadded(xhrs, id - |xhrs|);
    }
  }

  /** Marking a fresh entry live and clearing it again leaves as many live entries as before. */
  lemma MarkThenClear(xhrs: seq<Slot>, id: nat, m: Marker)
    requires |xhrs| <= id
    ensures var cleared := SetSlot(SetSlot(xhrs, id, Some(m)), id, None);
      |cleared| == id + 1 && cleared[id] == None && LiveCount(cleared) == LiveCount(xhrs)
  {
    LiveCountSetSlot(xhrs, id, Some(m));
    LiveCountSetSlot(SetSlot(xhrs, id, Some(m)), id, None);
  }

  // ------------------------------------------------------------- handler state

  datatype HandlerState = HandlerState(
    lastId: nat,                          // `_currentUniqueId` (undefined counts as 0)
    xhrs: seq<Slot>,                      // `_xhrs`
    errors: seq<ErrorRecord>,             // `_errors`
    completed: seq<CompletedRequest>,     // `_completedRequests`
    events: seq<Event>)                   // the hook calls made so far

  const Initial := HandlerState(0, [], [], [], [])

  /** Every entry of the pending table belongs to an id already handed out. */
  ghost predicate Consistent(s: HandlerState) {
    |s.xhrs| <= s.lastId + 1
  }

  /** `_getUniqueId`: the new state and the id. */
  function NextId(s: HandlerState): (HandlerState, nat) {
    (s.(lastId := s.lastId + 1), s.lastId + 1)
  }

  /** Ids are handed out as 1, 2, 3, ...: each one more than the last, each past every slot in use. */
  lemma NextIdFresh(s: HandlerState)
    requires Consistent(s)
    ensures var (t, id) := NextId(s);
      && id == s.lastId + 1 && t.lastId == id && Consistent(t)
      && id >= |s.xhrs| && t == s.(lastId := id)
  {
  }

  lemma FirstIdIsOne()
    ensures NextId(Initial).1 == 1
  {
  }

  /** `_calculateMaxFiles(nFiles)`: the new state and whether the batch may go on. */
  function MaxFilesStep(s: HandlerState, opts: Options, nFiles: nat): (HandlerState, bool) {
    if RejectsBatch(opts.maxFilesDropped, nFiles) then
      (s.(errors := [], events := s.events + [Errored(s.errors + [MaxFilesRecord])]), false)
    else (s, true)
  }

  /**
   * A batch is refused exactly when the limit is below its size; then the
   * errors handed to `onError` end with one `maxFilesDropped` record (no id,
   * no name) and the error list is emptied; otherwise nothing changes.
   */
  lemma MaxFilesVerdict(s: HandlerState, opts: Options, nFiles: nat)
    ensures var (t, ok) := MaxFilesStep(s, opts, nFiles);
      && (ok <==> !(LimitFor(opts.maxFilesDropped, nFiles).Some? && LimitFor(opts.maxFilesDropped, nFiles).value < nFiles))
      && (ok ==> t == s)
      && (!ok ==> (t.errors == [] && t.lastId == s.lastId && t.xhrs == s.xhrs && t.completed == s.completed
            && |t.events| == |s.events| + 1 && t.events[..|s.events|] == s.events
            && t.events[|s.events|].Errored?
            && var flushed := t.events[|s.events|].errors;
               |flushed| > 0 && flushed[|flushed| - 1] == ErrorRecord(None, None, None, MaxFilesDropped)))
  {
  }

  /** `_onBeforeSubmit(id, fileName)`: the new state and its verdict. */
  function BeforeSubmitStep(s: HandlerState, opts: Options, id: nat, fileName: string, hook: Option<bool>): (HandlerState, bool) {
    (s.(errors := s.errors + BeforeSubmitErrors(opts, id, fileName)), Accepts(opts, fileName, hook))
  }

  /** How many of the records carry the given error type. */
  function CountOf(errors: seq<ErrorRecord>, errorType: ErrorType): nat {
    if errors == [] then 0
    else CountOf(errors[..|errors| - 1], errorType) + (if errors[|errors| - 1].errorType == errorType then 1 else 0)
  }

  lemma CountOfPush(errors: seq<ErrorRecord>, e: ErrorRecord, errorType: ErrorType)
    ensures CountOf(errors + [e], errorType) == CountOf(errors, errorType) + (if e.errorType == errorType then 1 else 0)
  {
    assert (errors + [e])[..|errors|] == errors;
  }

  /**
   * Before-submit validation: an empty name adds exactly one `noFile` record
   * and no `extensionError`; a non-empty name with a refused extension adds
   * exactly one `extensionError`; an accepted name adds nothing. Only the
   * error list changes, and the verdict is true only for a non-empty name
   * with an allowed extension whose hook agrees.
   */
  lemma BeforeSubmitValidation(s: HandlerState, opts: Options, id: nat, fileName: string, hook: Option<bool>)
    ensures var (t, ok) := BeforeSubmitStep(s, opts, id, fileName, hook);
      && t == s.(errors := t.errors)
      && (ok <==> fileName != "" && IsExtensionAllowed(opts.allowedExtensions, fileName) && hook.GetOr(true))
      && (fileName == "" ==>
            t.errors == s.errors + [ErrorRecord(Some(id), Some(""), None, NoFile)]
            && CountOf(t.errors, NoFile) == CountOf(s.errors, NoFile) + 1
            && CountOf(t.errors, ExtensionError) == CountOf(s.errors, ExtensionError))
      && (fileName != "" && !IsExtensionAllowed(opts.allowedExtensions, fileName) ==>
            t.errors == s.errors + [ErrorRecord(Some(id), Some(fileName), None, ExtensionError)]
            && CountOf(t.errors, ExtensionError) == CountOf(s.errors, ExtensionError) + 1
            && CountOf(t.errors, NoFile) == CountOf(s.errors, NoFile))
      && (fileName != "" && IsExtensionAllowed(opts.allowedExtensions, fileName) ==> t.errors == s.errors)
  {
    var added := BeforeSubmitErrors(opts, id, fileName);
    if fileName == "" {
      assert added == [ErrorRecord(Some(id), Some(""), None, NoFile)];
      CountOfPush(s.errors, added[0], NoFile);
      CountOfPush(s.errors, added[0], ExtensionError);
    } else if !IsExtensionAllowed(opts.allowedExtensions, fileName) {
      assert added == [ErrorRecord(Some(id), Some(fileName), None, ExtensionError)];
      CountOfPush(s.errors, added[0], NoFile);
      CountOfPush(s.errors, added[0], ExtensionError);
    } else {
      assert added == [];
    }
  }

  /** `_onProgress`. */
  function ProgressStep(s: HandlerState, id: nat, fileName: string, extra: Option<ProgressData>): HandlerState {
    s.(events := s.events + [Progressed(id, fileName, extra)])
  }

  /** `_onSuccess(id, fileName, result)`. */
  function SuccessStep(s: HandlerState, opts: Options, id: nat, fileName: string, result: Response): HandlerState {
    if StatusMatches(result, opts.successStatus) then s.(events := s.events + [Succeeded(id, fileName, result)])
    else s.(errors := s.errors + [ErrorRecord(Some(id), Some(fileName), Some(result), Failure)])
  }

  /**
   * The success check does exactly one of two things: on a matching status it
   * calls `onSuccess` and records nothing; otherwise it records one `failure`
   * with the same id, name and result and calls nothing.
   */
  lemma SuccessExactlyOneOutcome(s: HandlerState, opts: Options, id: nat, fileName: string, result: Response)
    ensures var t := SuccessStep(s, opts, id, fileName, result);
      && t.lastId == s.lastId && t.xhrs == s.xhrs && t.completed == s.completed
      && (|t.events| - |s.events|) + (|t.errors| - |s.errors|) == 1
      && (result.status == opts.successStatus <==> t.events == s.events + [Succeeded(id, fileName, result)])
      && (result.status == opts.successStatus <==> t.errors == s.errors)
      && (result.status != opts.successStatus <==>
            t.errors == s.errors + [ErrorRecord(Some(id), Some(fileName), Some(result), Failure)])
  {
  }

  /** `_onComplete(id, fileName, result)`. */
  function CompleteStep(s: HandlerState, id: nat, fileName: string, result: Response): HandlerState {
    var done := s.completed + [CompletedRequest(id, fileName, result)];
    if LiveCount(s.xhrs) == 0 then
      s.(completed := [], errors := [], events := s.events + [Completed(done), Errored(s.errors)])
    else s.(completed := done)
  }

  /**
   * Completion batching: the entry is appended; the batch is flushed exactly
   * when no entry of the pending table is non-null, `onComplete` first and
   * `onError` second, and both lists are then empty; without a flush the
   * errors and the hook calls are unchanged.
   */
  lemma CompleteBatching(s: HandlerState, id: nat, fileName: string, result: Response)
    ensures var t := CompleteStep(s, id, fileName, result);
      var done := s.completed + [CompletedRequest(id, fileName, result)];
      && t.lastId == s.lastId && t.xhrs == s.xhrs
      && ((forall k :: 0 <= k < |s.xhrs| ==> s.xhrs[k].None?) <==> t.events != s.events)
      && ((forall k :: 0 <= k < |s.xhrs| ==> s.xhrs[k].None?) ==>
            t.events == s.events + [Completed(done), Errored(s.errors)] && t.completed == [] && t.errors == [])
      && (!(forall k :: 0 <= k < |s.xhrs| ==> s.xhrs[k].None?) ==>
            t.completed == done && t.errors == s.errors && t.events == s.events)
  {
    LiveCountZero(s.xhrs);
    var t := CompleteStep(s, id, fileName, result);
    if LiveCount(s.xhrs) == 0 {
      assert |t.events| == |s.events| + 2;
    }
  }

  /** `_onError(id, fileName, result, errorType)`. */
  function ErrorStep(s: HandlerState, id: Option<nat>, fileName: Option<string>, result: Option<Response>, errorType: ErrorType): HandlerState {
    s.(errors := s.errors + [ErrorRecord(id, fileName, result, errorType)])
  }

  // --------------------------------------------------------------- the object

  /** Counts the live entries of the pending table, as the loop of `_onComplete` does. */
  method RemainingXhrs(xhrs: seq<Slot>) returns (remaining: nat)
    ensures remaining == LiveCount(xhrs)
    ensures remaining == 0 <==> forall k :: 0 <= k < |xhrs| ==> xhrs[k].None?
  {
    remaining := 0;
    for i := 0 to |xhrs|
      invariant remaining == LiveCount(xhrs[..i])
    {
      assert xhrs[..i + 1][..i] == xhrs[..i];
      if xhrs[i].Some? {
        remaining := remaining + 1;
      }
    }
    assert xhrs[..|xhrs|] == xhrs;
    LiveCountZero(xhrs);
  }

  class UploadHandler {
    const options: Options
    var currentUniqueId: nat
    var xhrs: seq<Slot>
    var errors: seq<ErrorRecord>
    var completedRequests: seq<CompletedRequest>
    var events: seq<Event>

    ghost function State(): HandlerState
      reads this
    {
      HandlerState(currentUniqueId, xhrs, errors, completedRequests, events)
    }

    ghost predicate Valid()
      reads this
    {
      Consistent(State())
    }

    constructor (options: Options)
      ensures this.options == options && State() == Initial && Valid()
    {
      this.options := options;
      currentUniqueId, xhrs, errors, completedRequests, events := 0, [], [], [], [];
    }

    /** `init`: calls the `onInit` hook. */
    method Init()
      requires Valid()
      modifies this
      ensures Valid() && State() == old(State()).(events := old(events) + [Initialized])
    {
      events := events + [Initialized];
    }

    /** `_getUniqueId`. */
    method GetUniqueId() returns (id: nat)
      requires Valid()
      modifies this
      ensures Valid() && (State(), id) == NextId(old(State()))
    {
      currentUniqueId := currentUniqueId + 1;
      id := currentUniqueId;
    }

    /** `_xhrs[id] = v`. */
    method SetXhr(id: nat, v: Slot)
      requires Valid() && id <= currentUniqueId
      modifies this
      ensures Valid() && State() == old(State()).(xhrs := SetSlot(old(xhrs), id, v))
    {
      xhrs := SetSlot(xhrs, id, v);
    }

    /** `_calculateMaxFiles(nFiles)`. */
    method CalculateMaxFiles(nFiles: nat) returns (ok: bool)
      requires Valid()
      modifies this
      ensures Valid() && (State(), ok) == MaxFilesStep(old(State()), options, nFiles)
    {
      var limit := LimitFor(options.maxFilesDropped, nFiles);
      if limit.Some? && limit.value < nFiles {
        OnError(None, None, None, MaxFilesDropped);
        events := events + [Errored(errors)];
        errors := [];
        return false;
      }
      return true;
    }

    /** `_onBeforeSubmit(id, fileName)`; `hook` is what the `onBeforeSubmit` hook returns, `None` when there is none. */
    method OnBeforeSubmit(id: nat, fileName: string, hook: Option<bool>) returns (ok: bool)
      requires Valid()
      modifies this
      ensures Valid() && (State(), ok) == BeforeSubmitStep(old(State()), options, id, fileName, hook)
    {
      ok := true;
      if fileName != "" && !IsExtensionAllowed(options.allowedExtensions, fileName) {
        OnError(Some(id), Some(fileName), None, ExtensionError);
        ok := false;
      }
      if fileName == "" {
        OnError(Some(id), Some(fileName), None, NoFile);
        ok := false;
      }
      if !hook.GetOr(true) {
        ok := false;
      }
      assert old(errors) + BeforeSubmitErrors(options, id, fileName) == errors;
    }

    /** `_onProgress(id, fileName, extraData)`. */
    method OnProgress(id: nat, fileName: string, extra: Option<ProgressData>)
      requires Valid()
      modifies this
      ensures Valid() && State() == ProgressStep(old(State()), id, fileName, extra)
    {
      events := events + [Progressed(id, fileName, extra)];
    }

    /** `_onSuccess(id, fileName, result)`. */
    method OnSuccess(id: nat, fileName: string, result: Response)
      requires Valid()
      modifies this
      ensures Valid() && State() == SuccessStep(old(State()), options, id, fileName, result)
    {
      if result.status == options.successStatus {
        events := events + [Succeeded(id, fileName, result)];
      } else {
        OnError(Some(id), Some(fileName), Some(result), Failure);
      }
    }

    /** `_onComplete(id, fileName, result)`. */
    method OnComplete(id: nat, fileName: string, result: Response)
      requires Valid()
      modifies this
      ensures Valid() && State() == CompleteStep(old(State()), id, fileName, result)
    {
      completedRequests := completedRequests + [CompletedRequest(id, fileName, result)];
      var remaining := RemainingXhrs(xhrs);
      if remaining == 0 {
        events := events + [Completed(completedRequests), Errored(errors)];
        completedRequests := [];
        errors := [];
      }
    }

    /** `_onError(id, fileName, result, errorType)`. */
    method OnError(id: Option<nat>, fileName: Option<string>, result: Option<Response>, errorType: ErrorType)
      requires Valid()
      modifies this
      ensures Valid() && State() == ErrorStep(old(State()), id, fileName, result, errorType)
    {
      errors := errors + [ErrorRecord(id, fileName, result, errorType)];
    }
  }
}
