/**
 * The form-submission strategy (`fh.LegacyUploadHandler`): the three
 * ajaxForm callbacks `beforeSubmit`, `success` and `error`, which drive the
 * pending table of the shared bookkeeping. The form, its button and the
 * transport itself are not modelled; the parsed response is an input.
 */
module Legacy {
  import opened Wrappers
  import opened Handler

  /** The handler state and the `id` / `fileName` the three callbacks share (`null` until the first submission). */
  datatype LegacyState = LegacyState(core: HandlerState, id: Option<nat>, fileName: Option<string>)

  /** `beforeSubmit`: the new state and whether the form goes out. */
  function BeforeSubmitSpec(ls: LegacyState, opts: Options, inputValue: string, hook: Option<bool>): (LegacyState, bool) {
    var (s1, ok) := MaxFilesStep(ls.core, opts, 1);
    if !ok then (ls.(core := s1), false)
    else
      var (s2, id) := NextId(s1);
      var name := GetFileName(inputValue);
      var s3 := s2.(xhrs := SetSlot(s2.xhrs, id, Some(FormSubmission)));
      var (s4, valid) := BeforeSubmitStep(s3, opts, id, name, hook);
      if !valid then
        (LegacyState(CompleteStep(s4.(xhrs := SetSlot(s4.xhrs, id, None)), id, name, EmptyResult), Some(id), Some(name)), false)
      else (LegacyState(ProgressStep(s4, id, name, None), Some(id), Some(name)), true)
  }

  /** `success(data)`: clear the entry, then the success check, then completion. */
  function SuccessSpec(ls: LegacyState, opts: Options, data: Response): LegacyState
    requires ls.id.Some? && ls.fileName.Some?
  {
    var id, name := ls.id.value, ls.fileName.value;
    var s1 := ls.core.(xhrs := SetSlot(ls.core.xhrs, id, None));
    ls.(core := CompleteStep(SuccessStep(s1, opts, id, name, data), id, name, data))
  }

  /** `error(xhr)`: clear the entry, record an `exception` with the parsed body (`{}` when it does not parse), then completion. */
  function ErrorSpec(ls: LegacyState, parsed: Option<Response>): LegacyState
    requires ls.id.Some? && ls.fileName.Some?
  {
    var id, name := ls.id.value, ls.fileName.value;
    var result := parsed.GetOr(EmptyResult);
    var s1 := ls.core.(xhrs := SetSlot(ls.core.xhrs, id, None));
    ls.(core := CompleteStep(ErrorStep(s1, Some(id), Some(name), Some(result), Exception), id, name, result))
  }

  /**
   * A failed submission is always reported: its entry is cleared and its
   * `exception` record, with the parsed body or `{}`, ends the batch flushed
   * when that entry was the last live one, and the error list otherwise.
   */
  lemma ErrorReportsException(ls: LegacyState, parsed: Option<Response>)
    requires ls.id.Some? && ls.fileName.Some?
    ensures var u := ErrorSpec(ls, parsed);
      var result := parsed.GetOr(EmptyResult);
      var rec := ErrorRecord(ls.id, ls.fileName, Some(result), Exception);
      var entry := CompletedRequest(ls.id.value, ls.fileName.value, result);
      var cleared := SetSlot(ls.core.xhrs, ls.id.value, None);
      && u.id == ls.id && u.fileName == ls.fileName
      && u.core.xhrs == cleared && u.core.lastId == ls.core.lastId
      && (LiveCount(cleared) == 0 ==>
            u.core.events == ls.core.events + [Completed(ls.core.completed + [entry]), Errored(ls.core.errors + [rec])]
            && u.core.errors == [] && u.core.completed == [])
      && (LiveCount(cleared) != 0 ==>
            u.core.errors == ls.core.errors + [rec] && u.core.completed == ls.core.completed + [entry]
            && u.core.events == ls.core.events)
  {
  }

  /**
   * An accepted submission takes the next id, marks exactly that entry live
   * (an entry no earlier request used), records no error and reports progress
   * without byte counts.
   */
  lemma SubmitMarksPending(ls: LegacyState, opts: Options, inputValue: string, hook: Option<bool>)
    requires Consistent(ls.core)
    ensures var (t, submit) := BeforeSubmitSpec(ls, opts, inputValue, hook);
      submit ==>
        && t.id == Some(ls.core.lastId + 1) && t.fileName == Some(GetFileName(inputValue))
        && t.id.value >= |ls.core.xhrs|
        && t.core.xhrs[t.id.value] == Some(FormSubmission)
        && LiveCount(t.core.xhrs) == LiveCount(ls.core.xhrs) + 1
        && t.core.errors == ls.core.errors && t.core.completed == ls.core.completed
        && t.core.events == ls.core.events + [Progressed(t.id.value, t.fileName.value, None)]
  {
    SubmitTable(ls, opts, inputValue, hook);
    var id := ls.core.lastId + 1;
    LiveCountSetSlot(ls.core.xhrs, id, Some(FormSubmission));
    BeforeSubmitValidation(ls.core.(lastId := id, xhrs := SetSlot(ls.core.xhrs, id, Some(FormSubmission))),
      opts, id, GetFileName(inputValue), hook);
  }

  /** What `beforeSubmit` does to the id counter and the pending table, case by case. */
  lemma SubmitTable(ls: LegacyState, opts: Options, inputValue: string, hook: Option<bool>)
    ensures var r := BeforeSubmitSpec(ls, opts, inputValue, hook);
      var id := ls.core.lastId + 1;
      var marked := SetSlot(ls.core.xhrs, id, Some(FormSubmission));
      && (RejectsBatch(opts.maxFilesDropped, 1) ==>
            !r.1 && r.0.core.lastId == ls.core.lastId && r.0.core.xhrs == ls.core.xhrs && r.0.id == ls.id)
      && (!RejectsBatch(opts.maxFilesDropped, 1) ==>
            r.0.core.lastId == id && r.0.id == Some(id) && r.0.fileName == Some(GetFileName(inputValue))
            && r.1 == Accepts(opts, GetFileName(inputValue), hook))
      && (!RejectsBatch(opts.maxFilesDropped, 1) && Accepts(opts, GetFileName(inputValue), hook) ==>
            r.0.core.xhrs == marked)
      && (!RejectsBatch(opts.maxFilesDropped, 1) && !Accepts(opts, GetFileName(inputValue), hook) ==>
            r.0.core.xhrs == SetSlot(marked, id, None))
  {
  }

  /**
   * A refused submission leaves no request pending: the number of live
   * entries is what it was. When the file limit let it through, the request
   * took the next id and its entry is cleared again.
   */
  lemma SubmitRefusedLeavesNothingPending(ls: LegacyState, opts: Options, inputValue: string, hook: Option<bool>)
    requires Consistent(ls.core)
    ensures var r := BeforeSubmitSpec(ls, opts, inputValue, hook);
      && Consistent(r.0.core)
      && (!r.1 ==> LiveCount(r.0.core.xhrs) == LiveCount(ls.core.xhrs))
      && (!r.1 && !RejectsBatch(opts.maxFilesDropped, 1) ==>
            r.0.id == Some(ls.core.lastId + 1) && r.0.core.xhrs[r.0.id.value] == None)
  {
    SubmitTable(ls, opts, inputValue, hook);
    var id := ls.core.lastId + 1;
    MarkThenClear(ls.core.xhrs, id, FormSubmission);
  }

  /**
   * One full cycle from a drained table: an accepted submission followed by
   * the transport's success drains the table again and flushes one batch whose
   * completed list ends with this request, `onComplete` before `onError`.
   */
  lemma SubmitThenSuccessFlushes(ls: LegacyState, opts: Options, inputValue: string, hook: Option<bool>, data: Response)
    requires Consistent(ls.core) && LiveCount(ls.core.xhrs) == 0
    ensures var (t, submit) := BeforeSubmitSpec(ls, opts, inputValue, hook);
      submit ==>
        var u := SuccessSpec(t, opts, data);
        var entry := CompletedRequest(t.id.value, t.fileName.value, data);
        var checked := SuccessStep(t.core, opts, t.id.value, t.fileName.value, data);
        && LiveCount(u.core.xhrs) == 0 && u.core.completed == [] && u.core.errors == []
        && u.core.events == checked.events + [Completed(ls.core.completed + [entry]), Errored(checked.errors)]
  {
    var (t, submit) := BeforeSubmitSpec(ls, opts, inputValue, hook);
    if submit {
      SubmitMarksPending(ls, opts, inputValue, hook);
      var id := t.id.value;
      LiveCountSetSlot(t.core.xhrs, id, None);
    }
  }

  class LegacyUploadHandler {
    const core: UploadHandler
    var id: Option<nat>
    var fileName: Option<string>

    ghost function State(): LegacyState
      reads this, core
    {
      LegacyState(core.State(), id, fileName)
    }

    ghost predicate Valid()
      reads this, core
    {
      core.Valid() && (id.Some? <==> fileName.Some?) && (id.Some? ==> id.value <= core.currentUniqueId)
    }

    constructor (options: Options)
      ensures Valid() && fresh(core) && core.options == options && State() == LegacyState(Initial, None, None)
    {
      core := new UploadHandler(options);
      id, fileName := None, None;
    }

    /** The ajaxForm `beforeSubmit` callback; `hook` is the `onBeforeSubmit` hook's verdict. */
    method BeforeSubmit(inputValue: string, hook: Option<bool>) returns (submit: bool)
      requires Valid()
      modifies this, core
      ensures Valid() && (State(), submit) == BeforeSubmitSpec(old(State()), core.options, inputValue, hook)
    {
      ghost var s0 := core.State();
      var ok := core.CalculateMaxFiles(1);
      ghost var s1 := core.State();
      assert (s1, ok) == MaxFilesStep(s0, core.options, 1);
      if !ok {
        return false;
      }
      var newId := core.GetUniqueId();
      assert (core.State(), newId) == NextId(s1);
      var name := GetFileName(inputValue);
      id, fileName := Some(newId), Some(name);
      core.SetXhr(newId, Some(FormSubmission));
      ghost var s3 := core.State();
      var valid := core.OnBeforeSubmit(newId, name, hook);
      ghost var s4 := core.State();
      assert (s4, valid) == BeforeSubmitStep(s3, core.options, newId, name, hook);
      if !valid {
        core.SetXhr(newId, None);
        core.OnComplete(newId, name, EmptyResult);
        return false;
      }
      core.OnProgress(newId, name, None);
      return true;
    }

    /** The ajaxForm `success` callback, with the parsed body. */
    method Success(data: Response)
      requires Valid() && id.Some?
      modifies core
      ensures Valid() && State() == SuccessSpec(old(State()), core.options, data)
    {
      core.SetXhr(id.value, None);
      core.OnSuccess(id.value, fileName.value, data);
      core.OnComplete(id.value, fileName.value, data);
    }

    /** The ajaxForm `error` callback; `parsed` is `$.parseJSON(responseText)`, `None` when it throws. */
    method Error(parsed: Option<Response>)
      requires Valid() && id.Some?
      modifies core
      ensures Valid() && State() == ErrorSpec(old(State()), parsed)
    {
      core.SetXhr(id.value, None);
      var result := parsed.GetOr(EmptyResult);
      core.OnError(id, fileName, Some(result), Exception);
      core.OnComplete(id.value, fileName.value, result);
    }
  }
}
