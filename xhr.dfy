/**
 * The XMLHttpRequest strategy (`fh.XHRUploadHandler`): dropping or choosing
 * files (`_onDrop`), the per-file pre-check of `_upload`, the request URL, and
 * the ready-state completion. Sending, headers, progress events and
 * drag-and-drop wiring are not modelled; the parsed response is an input.
 */
module Xhr {
  import opened Wrappers
  import opened Handler

  /** The text between `action` and the encoded parameters (`temp`). */
  function QuerySeparator(action: string): (sep: string)
    ensures sep == "?" <==> '?' !in action
    ensures sep == "" <==> |action| > 0 && action[|action| - 1] == '?'
    ensures sep == "&" <==> '?' in action && action[|action| - 1] != '?'
    ensures '?' in action + sep
    ensures var u := action + sep; u[|u| - 1] == '?' || u[|u| - 1] == '&'
  {
    if '?' !in action then "?"
    else if action[|action| - 1] == '?' then ""
    else "&"
  }

  /**
   * The URL the upload is posted to: the action, the separator, and the
   * parameters with the file name under `inputName`, encoded by `encode`
   * (`$.param`, not modelled).
   */
  function UploadUrl(opts: Options, fileName: string, encode: map<string, string> -> string): string {
    opts.action + QuerySeparator(opts.action) + encode(opts.params[opts.inputName := fileName])
  }

  /**
   * The URL begins with the action and ends with the encoded parameters, which
   * always follow a `?` or `&`, and a `?` always stands before them.
   */
  lemma UploadUrlShape(opts: Options, fileName: string, encode: map<string, string> -> string)
    ensures var url := UploadUrl(opts, fileName, encode);
      var query := encode(opts.params[opts.inputName := fileName]);
      var head := url[..|url| - |query|];
      && |url| > |query| && url[..|opts.action|] == opts.action && url[|url| - |query|..] == query
      && '?' in head && (head[|head| - 1] == '?' || head[|head| - 1] == '&')
  {
    var query := encode(opts.params[opts.inputName := fileName]);
    var head := opts.action + QuerySeparator(opts.action);
    assert UploadUrl(opts, fileName, encode) == head + query;
    assert (head + query)[..|head|] == head;
  }

  /** `_upload(id, file)` up to the point where the request is sent: the new state and whether it is sent. */
  function UploadSpec(s: HandlerState, opts: Options, id: nat, fileName: string, hook: Option<bool>): (HandlerState, bool) {
    var s1 := s.(xhrs := SetSlot(s.xhrs, id, Some(Request)));
    var (s2, ok) := BeforeSubmitStep(s1, opts, id, fileName, hook);
    if !ok then (CompleteStep(s2.(xhrs := SetSlot(s2.xhrs, id, None)), id, fileName, EmptyResult), false)
    else (s2, true)
  }

  /** `onreadystatechange`: only state 4 (done) clears the entry and runs the success check and completion. */
  function ReadyStateSpec(s: HandlerState, opts: Options, id: nat, fileName: string, readyState: nat, parsed: Option<Response>): HandlerState {
    if readyState != 4 then s
    else
      var result := parsed.GetOr(EmptyResult);
      var s1 := s.(xhrs := SetSlot(s.xhrs, id, None));
      CompleteStep(SuccessStep(s1, opts, id, fileName, result), id, fileName, result)
  }

  /** One iteration of the loop of `_onDrop`: take an id, then `_upload`. */
  function UploadOne(s: HandlerState, opts: Options, fileName: string, hook: Option<bool>): HandlerState {
    var (s1, id) := NextId(s);
    UploadSpec(s1, opts, id, fileName, hook).0
  }

  /** The loop of `_onDrop` over the files, in order; `hooks[k]` is the `onBeforeSubmit` verdict for file k. */
  function UploadAll(s: HandlerState, opts: Options, names: seq<string>, hooks: seq<Option<bool>>): HandlerState
    requires |hooks| == |names|
  {
    if names == [] then s
    else UploadOne(UploadAll(s, opts, names[..|names| - 1], hooks[..|hooks| - 1]), opts, names[|names| - 1], hooks[|hooks| - 1])
  }

  /** The drop loop over one more file. */
  lemma UploadAllPush(s: HandlerState, opts: Options, names: seq<string>, hooks: seq<Option<bool>>, i: nat)
    requires |hooks| == |names| && i < |names|
    ensures UploadAll(s, opts, names[..i + 1], hooks[..i + 1])
         == UploadOne(UploadAll(s, opts, names[..i], hooks[..i]), opts, names[i], hooks[i])
  {
    assert names[..i + 1][..i] == names[..i] && hooks[..i + 1][..i] == hooks[..i];
  }

  /** `_onDrop(files)`; `dropAllowed` is the `onDrop` hook's verdict. */
  function DropSpec(s: HandlerState, opts: Options, names: seq<string>, dropAllowed: bool, hooks: seq<Option<bool>>): HandlerState
    requires |hooks| == |names|
  {
    var (s1, ok) := MaxFilesStep(s, opts, |names|);
    if !ok || !dropAllowed then s1 else UploadAll(s1, opts, names, hooks)
  }

  /** A batch over the limit starts no upload: no id is taken, the table is untouched, and the errors are flushed ending with `maxFilesDropped`. */
  lemma DropOverLimitStartsNothing(s: HandlerState, opts: Options, names: seq<string>, dropAllowed: bool, hooks: seq<Option<bool>>)
    requires |hooks| == |names| && RejectsBatch(opts.maxFilesDropped, |names|)
    ensures DropSpec(s, opts, names, dropAllowed, hooks)
         == s.(errors := [], events := s.events + [Errored(s.errors + [ErrorRecord(None, None, None, MaxFilesDropped)])])
  {
  }

  /** Dropping four files with `maxFilesDropped` 3 starts no upload, and the flushed errors hold one `maxFilesDropped` record. */
  lemma FourFilesOverLimitOfThree(opts: Options, names: seq<string>, hooks: seq<Option<bool>>)
    requires opts.maxFilesDropped == Fixed(3) && |names| == 4 && |hooks| == 4
    ensures var t := DropSpec(Initial, opts, names, true, hooks);
      t.lastId == 0 && t.xhrs == [] && t.events == [Errored([ErrorRecord(None, None, None, MaxFilesDropped)])]
  {
    DropOverLimitStartsNothing(Initial, opts, names, true, hooks);
    assert Initial.errors + [MaxFilesRecord] == [MaxFilesRecord];
    assert Initial.events + [Errored([MaxFilesRecord])] == [Errored([MaxFilesRecord])];
  }

  /** One upload takes the next id and leaves its entry live exactly when the file was accepted; earlier entries are untouched. */
  lemma UploadOneTable(s: HandlerState, opts: Options, fileName: string, hook: Option<bool>)
    requires Consistent(s)
    ensures var t := UploadOne(s, opts, fileName, hook);
      && t.lastId == s.lastId + 1 && Consistent(t) && |t.xhrs| == t.lastId + 1
      && t.xhrs[t.lastId] == (if Accepts(opts, fileName, hook) then Some(Request) else None)
      && (forall k :: 0 <= k < |s.xhrs| ==> t.xhrs[k] == s.xhrs[k])
      && (forall k :: |s.xhrs| <= k < t.lastId ==> t.xhrs[k] == None)
  {
    var id := s.lastId + 1;
    var marked := SetSlot(s.xhrs, id, Some(Request));
    var s2 := s.(lastId := id, xhrs := marked, errors := s.errors + BeforeSubmitErrors(opts, id, fileName));
    assert BeforeSubmitStep(s.(lastId := id, xhrs := marked), opts, id, fileName, hook) == (s2, Accepts(opts, fileName, hook));
  }

  /**
   * The drop loop hands the files ids s.lastId + 1, s.lastId + 2, ... in
   * order; afterwards the entry of file k is live exactly when file k was
   * accepted, and entries from before the drop are untouched.
   */
  lemma {:induction false} UploadAllTable(s: HandlerState, opts: Options, names: seq<string>, hooks: seq<Option<bool>>)
    requires Consistent(s) && |hooks| == |names|
    ensures var t := UploadAll(s, opts, names, hooks);
      && t.lastId == s.lastId + |names| && Consistent(t)
      && (forall k :: 0 <= k < |s.xhrs| ==> t.xhrs[k] == s.xhrs[k])
      && (forall k :: 0 <= k < |names| ==>
            s.lastId + 1 + k < |t.xhrs|
            && t.xhrs[s.lastId + 1 + k] == (if Accepts(opts, names[k], hooks[k]) then Some(Request) else None))
  {
    if names != [] {
      var n := |names|;
      var init, initHooks := names[..n - 1], hooks[..n - 1];
      UploadAllTable(s, opts, init, initHooks);
      var m := UploadAll(s, opts, init, initHooks);
      UploadOneTable(m, opts, names[n - 1], hooks[n - 1]);
      var t := UploadAll(s, opts, names, hooks);
      assert t == UploadOne(m, opts, names[n - 1], hooks[n - 1]);
      TableExtend(s, m, t, opts, names, hooks, init, initHooks);
    }
  }

  /** The table facts for all files follow from those for all but the last and those for the last upload. */
  lemma TableExtend(s: HandlerState, m: HandlerState, t: HandlerState, opts: Options, names: seq<string>, hooks: seq<Option<bool>>,
                    init: seq<string>, initHooks: seq<Option<bool>>)
    requires |hooks| == |names| > 0 && init == names[..|names| - 1] && initHooks == hooks[..|hooks| - 1]
    requires && m.lastId == s.lastId + |init| && Consistent(m) && |s.xhrs| <= |m.xhrs|
      && (forall k :: 0 <= k < |s.xhrs| ==> m.xhrs[k] == s.xhrs[k])
      && (forall k :: 0 <= k < |init| ==>
            s.lastId + 1 + k < |m.xhrs|
            && m.xhrs[s.lastId + 1 + k] == (if Accepts(opts, init[k], initHooks[k]) then Some(Request) else None))
    requires && t.lastId == m.lastId + 1 && Consistent(t) && |t.xhrs| == t.lastId + 1
      && t.xhrs[t.lastId] == (if Accepts(opts, names[|names| - 1], hooks[|names| - 1]) then Some(Request) else None)
      && (forall k :: 0 <= k < |m.xhrs| ==> t.xhrs[k] == m.xhrs[k])
    ensures && t.lastId == s.lastId + |names| && Consistent(t)
      && (forall k :: 0 <= k < |s.xhrs| ==> t.xhrs[k] == s.xhrs[k])
      && (forall k :: 0 <= k < |names| ==>
            s.lastId + 1 + k < |t.xhrs|
            && t.xhrs[s.lastId + 1 + k] == (if Accepts(opts, names[k], hooks[k]) then Some(Request) else None))
  {
    var n := |names|;
    forall k | 0 <= k < n
      ensures s.lastId + 1 + k < |t.xhrs|
      ensures t.xhrs[s.lastId + 1 + k] == (if Accepts(opts, names[k], hooks[k]) then Some(Request) else None)
    {
      if k < n - 1 {
        assert init[k] == names[k] && initHooks[k] == hooks[k];
      }
    }
  }

  /**
   * A file refused before anything else is pending is completed and flushed
   * at once, in a batch of its own: the completion batching splits a drop
   * whose first file is refused.
   */
  lemma RefusedFileFlushesAlone(s: HandlerState, opts: Options, fileName: string, hook: Option<bool>)
    requires Consistent(s) && LiveCount(s.xhrs) == 0 && !Accepts(opts, fileName, hook)
    ensures var t := UploadOne(s, opts, fileName, hook);
      var id := s.lastId + 1;
      && t.completed == [] && t.errors == [] && LiveCount(t.xhrs) == 0
      && t.events == s.events + [Completed(s.completed + [CompletedRequest(id, fileName, EmptyResult)]),
                                 Errored(s.errors + BeforeSubmitErrors(opts, id, fileName))]
  {
    var id := s.lastId + 1;
    MarkThenClear(s.xhrs, id, Request);
    var marked := SetSlot(s.xhrs, id, Some(Request));
    var s2 := s.(lastId := id, xhrs := marked, errors := s.errors + BeforeSubmitErrors(opts, id, fileName));
    assert BeforeSubmitStep(s.(lastId := id, xhrs := marked), opts, id, fileName, hook) == (s2, false);
  }

  /**
   * Ready state 4 clears the entry; the batch is flushed exactly when that
   * was the last live entry. Any other ready state changes nothing.
   */
  lemma ReadyStateCompletion(s: HandlerState, opts: Options, id: nat, fileName: string, readyState: nat, parsed: Option<Response>)
    ensures var t := ReadyStateSpec(s, opts, id, fileName, readyState, parsed);
      var cleared := SetSlot(s.xhrs, id, None);
      && (readyState != 4 ==> t == s)
      && (readyState == 4 ==> t.xhrs == cleared && t.lastId == s.lastId)
      && (readyState == 4 && LiveCount(cleared) == 0 ==>
            t.completed == [] && t.errors == [] && |t.events| >= 2 && t.events[|t.events| - 2].Completed?)
      && (readyState == 4 && LiveCount(cleared) != 0 ==>
            t.completed == s.completed + [CompletedRequest(id, fileName, parsed.GetOr(EmptyResult))])
  {
  }

  class XhrUploadHandler {
    const core: UploadHandler
    var filesDropped: nat

    ghost predicate Valid()
      reads this, core
    {
      core.Valid()
    }

    constructor (options: Options)
      ensures Valid() && fresh(core) && core.options == options && core.State() == Initial && filesDropped == 0
    {
      core := new UploadHandler(options);
      filesDropped := 0;
    }

    /**
     * `_upload(id, file)`: mark the entry, validate, and either complete at
     * once with `{}` or return the URL the request is posted to.
     */
    method Upload(id: nat, fileName: string, hook: Option<bool>, encode: map<string, string> -> string) returns (url: Option<string>)
      requires Valid() && id <= core.currentUniqueId
      modifies core
      ensures Valid() && (core.State(), url.Some?) == UploadSpec(old(core.State()), core.options, id, fileName, hook)
      ensures url.Some? ==> url.value == UploadUrl(core.options, fileName, encode)
    {
      core.SetXhr(id, Some(Request));
      var ok := core.OnBeforeSubmit(id, fileName, hook);
      if !ok {
        core.SetXhr(id, None);
        core.OnComplete(id, fileName, EmptyResult);
        return None;
      }
      var opts := core.options;
      var params := opts.params[opts.inputName := fileName];
      url := Some(opts.action + QuerySeparator(opts.action) + encode(params));
    }

    /** `xhr.onreadystatechange` for the request of `id`. */
    method ReadyStateChange(id: nat, fileName: string, readyState: nat, parsed: Option<Response>)
      requires Valid() && id <= core.currentUniqueId
      modifies core
      ensures Valid() && core.State() == ReadyStateSpec(old(core.State()), core.options, id, fileName, readyState, parsed)
    {
      if readyState == 4 {
        var result := parsed.GetOr(EmptyResult);
        core.SetXhr(id, None);
        core.OnSuccess(id, fileName, result);
        core.OnComplete(id, fileName, result);
      }
    }

    /** `_onDrop(files)`: the file limit, the `onDrop` hook, then one upload per file. */
    method Drop(names: seq<string>, dropAllowed: bool, hooks: seq<Option<bool>>, encode: map<string, string> -> string)
      requires Valid() && |hooks| == |names|
      modifies this, core
      ensures Valid() && filesDropped == |names|
      ensures core.State() == DropSpec(old(core.State()), core.options, names, dropAllowed, hooks)
    {
      filesDropped := |names|;
      var ok := core.CalculateMaxFiles(|names|);
      if !ok || !dropAllowed {
        return;
      }
      ghost var start := core.State();
      for i := 0 to |names|
        invariant Valid() && filesDropped == |names|
        invariant core.State() == UploadAll(start, core.options, names[..i], hooks[..i])
      {
        UploadAllPush(start, core.options, names, hooks, i);
        var id := core.GetUniqueId();
        var _ := Upload(id, names[i], hooks[i], encode);
      }
      assert names[..|names|] == names && hooks[..|hooks|] == hooks;
    }
  }
}
