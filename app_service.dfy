/** `MainService`: the application's own translation coordinator. It keeps
    the cached model and the task that constructs a `Translator` from it,
    and serializes translation runs the way `TranslatorService` does, with
    three differences: the "translation task" slot is never cleared, so a
    run always has the one created before it as its previous run; there is
    no debounce and no empty-input shortcut; and progress is a stored flag
    that a run sets once it has a loading task and resets on every exit
    after that. `Consistent` proves the flag never drifts from "some run is
    active".

    Events are as in `TranslatorService`: a run's id is its index in
    `runs`; the tasks the service spawns are numbers and pending counters;
    the outcome of a `Translator` construction is recorded by
    `CompleteLoad`. */
module AppService {
  import opened Common
  import opened Files
  import opened Translation
  import Cache

  /** A task constructing a `Translator`: its identity and the file. */
  datatype LoadingTask = LoadingTask(id: nat, url: Url)

  /** Where a run's task stands. */
  datatype Phase =
    | Created                          // created, not started yet
    | Awaiting                         // cancelled the previous run and awaits it
    | Loading(task: LoadingTask)       // awaiting the translator's construction
    | Streaming(received: seq<string>) // consuming the translator's fragments
    | Done(outcome: Outcome)           // returned or threw

  /** Past the await on the previous run. */
  predicate Started(p: Phase) {
    !p.Created? && !p.Awaiting?
  }

  /** Past the await on the previous run and not finished. */
  predicate Active(p: Phase) {
    Started(p) && !p.Done?
  }

  /** One run: the source string, mode and style it captured, whether it has
      been cancelled, and its phase. */
  datatype Run = Run(source: string, mode: Mode, style: Style, cancelled: bool, phase: Phase)

  /** The invariant of the runs, the slot, the output and the flag:
      - the slot holds the newest run, once there is one;
      - a run that got past its await comes after finished runs only;
      - `isTranslating` is set exactly when some run is active;
      - while a run awaits its translator, the output is empty;
      - while a run streams, the output is the fragments it has received. */
  predicate Consistent(runs: seq<Run>, slot: Option<nat>, output: string, isTranslating: bool) {
    slot == (if runs == [] then None else Some(|runs| - 1))
    && (forall g, r :: 0 <= r < g < |runs| && Started(runs[g].phase) ==> runs[r].phase.Done?)
    && (isTranslating <==> exists g :: 0 <= g < |runs| && Active(runs[g].phase))
    && (forall g :: 0 <= g < |runs| && runs[g].phase.Loading? ==> output == "")
    && (forall g :: 0 <= g < |runs| && runs[g].phase.Streaming? ==> output == Concat(runs[g].phase.received))
  }

  /** At most one run is active at any time. */
  lemma AtMostOneActive(runs: seq<Run>, slot: Option<nat>, output: string, isTranslating: bool)
    requires Consistent(runs, slot, output, isTranslating)
    ensures forall a, b :: 0 <= a < |runs| && 0 <= b < |runs| && Active(runs[a].phase) && Active(runs[b].phase) ==> a == b
  {
  }

  /** A run whose previous run has finished (or that has none): every
      earlier run has finished. */
  lemma PredecessorsDone(runs: seq<Run>, slot: Option<nat>, output: string, isTranslating: bool, id: nat)
    requires Consistent(runs, slot, output, isTranslating) && id < |runs|
    requires id > 0 ==> runs[id - 1].phase.Done?
    ensures forall r :: 0 <= r < id ==> runs[r].phase.Done?
  {
    forall r | 0 <= r < id ensures runs[r].phase.Done? {
      if r < id - 1 {
        assert Started(runs[id - 1].phase);
      }
    }
  }

  /** A run whose earlier runs have all finished moves to a phase past its
      await. The flag was set only when that run was active, and afterwards
      it is set exactly when the run is still active; the output may be
      anything unless the run now streams. */
  lemma Step(runs: seq<Run>, slot: Option<nat>, output: string, isTranslating: bool,
             id: nat, phase: Phase, output': string)
    requires Consistent(runs, slot, output, isTranslating) && id < |runs| && !runs[id].phase.Done?
    requires forall r :: 0 <= r < id ==> runs[r].phase.Done?
    requires Started(phase)
    requires phase.Loading? ==> output' == ""
    requires phase.Streaming? ==> output' == Concat(phase.received)
    ensures isTranslating <==> Active(runs[id].phase)
    ensures Consistent(runs[id := runs[id].(phase := phase)], slot, output', Active(phase))
  {
    var runs' := runs[id := runs[id].(phase := phase)];
    assert forall g :: id < g < |runs| ==> !Started(runs[g].phase);
    assert forall g, r :: 0 <= r < g < |runs'| && Started(runs'[g].phase) ==> runs'[r].phase.Done?;
    assert (exists g :: 0 <= g < |runs'| && Active(runs'[g].phase)) <==> Active(phase) by {
      if Active(phase) {
        assert Active(runs'[id].phase);
      }
    }
    if isTranslating {
      var g :| 0 <= g < |runs| && Active(runs[g].phase);
      assert g == id;
    }
  }

  /** A created run starting: it marks the run before it cancelled. */
  lemma BeginStep(runs: seq<Run>, slot: Option<nat>, output: string, isTranslating: bool, id: nat)
    requires Consistent(runs, slot, output, isTranslating) && id < |runs| && runs[id].phase == Created
    ensures var marked := runs[id := runs[id].(phase := Awaiting)];
      Consistent(if id > 0 then marked[id - 1 := marked[id - 1].(cancelled := true)] else marked, slot, output, isTranslating)
  {
    var marked := runs[id := runs[id].(phase := Awaiting)];
    var runs' := if id > 0 then marked[id - 1 := marked[id - 1].(cancelled := true)] else marked;
    assert forall g :: 0 <= g < |runs| ==> runs'[g].phase == runs[g].phase || g == id;
    if isTranslating {
      var g :| 0 <= g < |runs| && Active(runs[g].phase);
      assert Active(runs'[g].phase);
    }
  }

  /** A new run, created but not started, becomes the newest one. */
  lemma RequestStep(runs: seq<Run>, slot: Option<nat>, output: string, isTranslating: bool, run: Run)
    requires Consistent(runs, slot, output, isTranslating) && run.phase == Created
    ensures Consistent(runs + [run], Some(|runs|), output, isTranslating)
  {
    var runs' := runs + [run];
    if isTranslating {
      var g :| 0 <= g < |runs| && Active(runs[g].phase);
      assert Active(runs'[g].phase);
    }
  }

  class MainService {
    var mode: Mode
    var style: Style
    var sourceString: string
    var translatedString: string
    var isTranslating: bool
    const cachedTranslatorModel: Cache.CachedModel
    var translatorLoadingTask: Option<LoadingTask>
    /** The number of `Translator` constructions started so far. */
    var loadCount: nat
    /** The outcome of every construction that has completed. */
    var loadResults: map<nat, Outcome>
    /** Download tasks spawned by `downloadModel()` that have not run yet. */
    var pendingDownloads: nat
    var translationTask: Option<nat>
    /** Every run created so far, in creation order. */
    var runs: seq<Run>

    ghost predicate Valid()
      reads this
    {
      Consistent(runs, translationTask, translatedString, isTranslating)
    }

    /** The cached model is a parameter: the source calls a `CachedModel`
        initializer that `CachedModel` does not declare. */
    constructor (cachedTranslatorModel: Cache.CachedModel)
      ensures Valid()
      ensures this.cachedTranslatorModel == cachedTranslatorModel
      ensures mode == Mode.Automatic && style == Technical && sourceString == "" && translatedString == ""
      ensures !isTranslating && translatorLoadingTask == None && loadCount == 0 && loadResults == map[]
      ensures pendingDownloads == 0 && translationTask == None && runs == []
    {
      mode := Mode.Automatic;
      style := Technical;
      sourceString := "";
      translatedString := "";
      isTranslating := false;
      this.cachedTranslatorModel := cachedTranslatorModel;
      translatorLoadingTask := None;
      loadCount := 0;
      loadResults := map[];
      pendingDownloads := 0;
      translationTask := None;
      runs := [];
    }

    /** `preloadModel()`: refresh the cache, swallowing its error, and start
        constructing a translator only when the file is available;
        otherwise keep the current loading task. */
    method PreloadModel()
      modifies this, cachedTranslatorModel
      ensures cachedTranslatorModel.url == Cache.RefreshedUrl(cachedTranslatorModel.env, cachedTranslatorModel.source,
                                                              cachedTranslatorModel.fs.entries, old(cachedTranslatorModel.url))
      ensures cachedTranslatorModel.download == old(cachedTranslatorModel.download)
      ensures cachedTranslatorModel.taskCount == old(cachedTranslatorModel.taskCount)
      ensures cachedTranslatorModel.results == old(cachedTranslatorModel.results)
      ensures cachedTranslatorModel.State().Available? ==>
        translatorLoadingTask == Some(LoadingTask(old(loadCount), cachedTranslatorModel.State().url))
        && loadCount == old(loadCount) + 1
      ensures !cachedTranslatorModel.State().Available? ==>
        translatorLoadingTask == old(translatorLoadingTask) && loadCount == old(loadCount)
      ensures loadResults == old(loadResults) && pendingDownloads == old(pendingDownloads)
      ensures runs == old(runs) && translationTask == old(translationTask)
      ensures translatedString == old(translatedString) && isTranslating == old(isTranslating)
      ensures mode == old(mode) && style == old(style) && sourceString == old(sourceString)
    {
      var _ := cachedTranslatorModel.Update();
      var s := cachedTranslatorModel.State();
      if !s.Available? {
        return;
      }
      translatorLoadingTask := Some(LoadingTask(loadCount, s.url));
      loadCount := loadCount + 1;
    }

    /** The construction task with identity `task` completing: the
        translator was constructed, or construction failed. Nothing happens
        unless that task was started and has not completed. */
    method CompleteLoad(task: nat, constructed: bool) returns (completed: bool)
      modifies this
      ensures completed <==> task < old(loadCount) && task !in old(loadResults)
      ensures loadResults == if completed then old(loadResults)[task := if constructed then Pass else Fail(ConstructionFailed)]
                             else old(loadResults)
      ensures translatorLoadingTask == old(translatorLoadingTask) && loadCount == old(loadCount)
      ensures pendingDownloads == old(pendingDownloads) && runs == old(runs) && translationTask == old(translationTask)
      ensures translatedString == old(translatedString) && isTranslating == old(isTranslating)
      ensures mode == old(mode) && style == old(style) && sourceString == old(sourceString)
    {
      completed := task < loadCount && task !in loadResults;
      if completed {
        loadResults := loadResults[task := if constructed then Pass else Fail(ConstructionFailed)];
      }
    }

    /** `downloadModel()`: refresh the cache, then spawn a download task only
        when the file is unavailable. */
    method DownloadModel() returns (spawned: bool)
      modifies this, cachedTranslatorModel
      ensures cachedTranslatorModel.url == Cache.RefreshedUrl(cachedTranslatorModel.env, cachedTranslatorModel.source,
                                                              cachedTranslatorModel.fs.entries, old(cachedTranslatorModel.url))
      ensures cachedTranslatorModel.download == old(cachedTranslatorModel.download)
      ensures cachedTranslatorModel.taskCount == old(cachedTranslatorModel.taskCount)
      ensures cachedTranslatorModel.results == old(cachedTranslatorModel.results)
      ensures spawned <==> cachedTranslatorModel.State().Unavailable?
      ensures pendingDownloads == old(pendingDownloads) + (if spawned then 1 else 0)
      ensures translatorLoadingTask == old(translatorLoadingTask) && loadCount == old(loadCount) && loadResults == old(loadResults)
      ensures runs == old(runs) && translationTask == old(translationTask)
      ensures translatedString == old(translatedString) && isTranslating == old(isTranslating)
      ensures mode == old(mode) && style == old(style) && sourceString == old(sourceString)
    {
      var _ := cachedTranslatorModel.Update();
      spawned := cachedTranslatorModel.State().Unavailable?;
      if spawned {
        pendingDownloads := pendingDownloads + 1;
      }
    }

    /** A spawned download task starting: it calls the cache's `download()`. */
    method StartSpawnedDownload() returns (call: Option<Cache.DownloadCall>)
      modifies this, cachedTranslatorModel
      ensures old(pendingDownloads) == 0 ==>
        call == None && pendingDownloads == 0
        && cachedTranslatorModel.download == old(cachedTranslatorModel.download)
        && cachedTranslatorModel.taskCount == old(cachedTranslatorModel.taskCount)
      ensures old(pendingDownloads) > 0 ==> call.Some? && pendingDownloads == old(pendingDownloads) - 1
      ensures old(pendingDownloads) > 0 && old(cachedTranslatorModel.download).Some? ==>
        call == Some(Cache.Joined(old(cachedTranslatorModel.download).value.task))
        && cachedTranslatorModel.download == old(cachedTranslatorModel.download)
        && cachedTranslatorModel.taskCount == old(cachedTranslatorModel.taskCount)
      ensures old(pendingDownloads) > 0 && old(cachedTranslatorModel.download).None? ==>
        call == Some(Cache.Started(old(cachedTranslatorModel.taskCount)))
        && cachedTranslatorModel.taskCount == old(cachedTranslatorModel.taskCount) + 1
        && cachedTranslatorModel.download == Some(Cache.DownloadRecord(old(cachedTranslatorModel.taskCount),
                                                                       Cache.Progress(old(cachedTranslatorModel.taskCount))))
      ensures old(pendingDownloads) > 0 ==> cachedTranslatorModel.State().Loading?
      ensures cachedTranslatorModel.url == old(cachedTranslatorModel.url)
      ensures cachedTranslatorModel.results == old(cachedTranslatorModel.results)
      ensures translatorLoadingTask == old(translatorLoadingTask) && loadCount == old(loadCount) && loadResults == old(loadResults)
      ensures runs == old(runs) && translationTask == old(translationTask)
      ensures translatedString == old(translatedString) && isTranslating == old(isTranslating)
      ensures mode == old(mode) && style == old(style) && sourceString == old(sourceString)
    {
      if pendingDownloads == 0 {
        return None;
      }
      pendingDownloads := pendingDownloads - 1;
      var c := cachedTranslatorModel.Download();
      call := Some(c);
    }

    /** A spawned download task resuming after the cache's `download()`:
        preload on success; swallow a failure. Nothing happens while the
        download has not completed. */
    method FinishSpawnedDownload(call: Cache.DownloadCall) returns (outcome: Option<Outcome>)
      modifies this, cachedTranslatorModel
      ensures call.Joined? ==> outcome == old(cachedTranslatorModel.Awaited(call.task))
      ensures call.Started? ==>
        outcome == if old(cachedTranslatorModel.download).Some? && old(cachedTranslatorModel.download).value.task == call.task
                   then old(cachedTranslatorModel.Awaited(call.task)) else None
      ensures call.Started? && outcome.Some? ==> cachedTranslatorModel.download == None
      ensures call.Joined? || outcome.None? ==> cachedTranslatorModel.download == old(cachedTranslatorModel.download)
      ensures cachedTranslatorModel.taskCount == old(cachedTranslatorModel.taskCount)
      ensures cachedTranslatorModel.results == old(cachedTranslatorModel.results)
      ensures outcome == Some(Pass) ==>
        cachedTranslatorModel.url == Cache.RefreshedUrl(cachedTranslatorModel.env, cachedTranslatorModel.source,
                                                        cachedTranslatorModel.fs.entries, old(cachedTranslatorModel.url))
      ensures outcome != Some(Pass) ==> cachedTranslatorModel.url == old(cachedTranslatorModel.url)
      ensures outcome != Some(Pass) || !cachedTranslatorModel.State().Available? ==>
        translatorLoadingTask == old(translatorLoadingTask) && loadCount == old(loadCount)
      ensures outcome == Some(Pass) && cachedTranslatorModel.State().Available? ==>
        translatorLoadingTask == Some(LoadingTask(old(loadCount), cachedTranslatorModel.State().url))
        && loadCount == old(loadCount) + 1
      ensures loadResults == old(loadResults) && pendingDownloads == old(pendingDownloads)
      ensures runs == old(runs) && translationTask == old(translationTask)
      ensures translatedString == old(translatedString) && isTranslating == old(isTranslating)
      ensures mode == old(mode) && style == old(style) && sourceString == old(sourceString)
    {
      if call.Started? {
        outcome := cachedTranslatorModel.ResumeStarter(call.task);
      } else {
        outcome := cachedTranslatorModel.Awaited(call.task);
      }
      if outcome == Some(Pass) {
        PreloadModel();
      }
    }

    /** `translate()`: capture the source string, mode and style, create a
        run, and store it as the translation task, unconditionally. */
    method Translate() returns (id: nat)
      requires Valid()
      modifies this
      ensures Valid()
      ensures id == |old(runs)| && translationTask == Some(id)
      ensures runs == old(runs) + [Run(sourceString, mode, style, false, Created)]
      ensures translatedString == old(translatedString) && isTranslating == old(isTranslating)
      ensures mode == old(mode) && style == old(style) && sourceString == old(sourceString)
      ensures translatorLoadingTask == old(translatorLoadingTask) && loadCount == old(loadCount)
      ensures loadResults == old(loadResults) && pendingDownloads == old(pendingDownloads)
    {
      var run := Run(sourceString, mode, style, false, Created);
      RequestStep(runs, translationTask, translatedString, isTranslating, run);
      id := |runs|;
      runs := runs + [run];
      translationTask := Some(id);
    }

    /** The run's task starting: it cancels the run created before it and
        begins to await it. Nothing happens unless the run was created and
        has not started. */
    method Begin(id: nat) returns (began: bool)
      requires Valid()
      modifies this
      ensures Valid()
      ensures began <==> id < |old(runs)| && old(runs[id]).phase == Created
      ensures began ==>
        var marked := old(runs)[id := old(runs[id]).(phase := Awaiting)];
        runs == if id > 0 then marked[id - 1 := marked[id - 1].(cancelled := true)] else marked
      ensures !began ==> runs == old(runs)
      ensures translationTask == old(translationTask)
      ensures translatedString == old(translatedString) && isTranslating == old(isTranslating)
      ensures translatorLoadingTask == old(translatorLoadingTask) && loadCount == old(loadCount)
      ensures loadResults == old(loadResults) && pendingDownloads == old(pendingDownloads)
      ensures mode == old(mode) && style == old(style) && sourceString == old(sourceString)
    {
      if id >= |runs| || runs[id].phase != Created {
        return false;
      }
      began := true;
      BeginStep(runs, translationTask, translatedString, isTranslating, id);
      runs := runs[id := runs[id].(phase := Awaiting)];
      if id > 0 {
        runs := runs[id - 1 := runs[id - 1].(cancelled := true)];
      }
    }

    /** The run resuming after the run before it finished (at once for the
        first run): it preloads the model; with no loading task it throws
        "no model available" and leaves the output and the flag alone;
        otherwise it clears the output, sets the flag and awaits the loading
        task. Nothing happens while the previous run is unfinished. */
    method Resume(id: nat) returns (resumed: bool)
      requires Valid()
      modifies this, cachedTranslatorModel
      ensures Valid()
      ensures resumed <==> id < |old(runs)| && old(runs[id]).phase == Awaiting && (id > 0 ==> old(runs)[id - 1].phase.Done?)
      ensures !resumed ==>
        runs == old(runs) && translatedString == old(translatedString) && isTranslating == old(isTranslating)
        && translatorLoadingTask == old(translatorLoadingTask) && loadCount == old(loadCount)
        && cachedTranslatorModel.url == old(cachedTranslatorModel.url)
      ensures resumed ==>
        cachedTranslatorModel.url == Cache.RefreshedUrl(cachedTranslatorModel.env, cachedTranslatorModel.source,
                                                        cachedTranslatorModel.fs.entries, old(cachedTranslatorModel.url))
        && (cachedTranslatorModel.State().Available? ==>
              translatorLoadingTask == Some(LoadingTask(old(loadCount), cachedTranslatorModel.State().url)))
        && (!cachedTranslatorModel.State().Available? ==> translatorLoadingTask == old(translatorLoadingTask))
      ensures resumed && translatorLoadingTask.None? ==>
        runs == old(runs)[id := old(runs[id]).(phase := Done(Fail(NoModelAvailable)))]
        && translatedString == old(translatedString) && !isTranslating && isTranslating == old(isTranslating)
      ensures resumed && translatorLoadingTask.Some? ==>
        runs == old(runs)[id := old(runs[id]).(phase := Loading(translatorLoadingTask.value))]
        && translatedString == "" && isTranslating
      ensures cachedTranslatorModel.download == old(cachedTranslatorModel.download)
      ensures cachedTranslatorModel.taskCount == old(cachedTranslatorModel.taskCount)
      ensures cachedTranslatorModel.results == old(cachedTranslatorModel.results)
      ensures translationTask == old(translationTask) && loadResults == old(loadResults) && pendingDownloads == old(pendingDownloads)
      ensures mode == old(mode) && style == old(style) && sourceString == old(sourceString)
    {
      if id >= |runs| || runs[id].phase != Awaiting || (id > 0 && !runs[id - 1].phase.Done?) {
        return false;
      }
      resumed := true;
      PredecessorsDone(runs, translationTask, translatedString, isTranslating, id);
      PreloadModel();
      match translatorLoadingTask {
        case None =>
          Step(runs, translationTask, translatedString, isTranslating, id, Done(Fail(NoModelAvailable)), translatedString);
          runs := runs[id := runs[id].(phase := Done(Fail(NoModelAvailable)))];
        case Some(task) =>
          Step(runs, translationTask, translatedString, isTranslating, id, Loading(task), "");
          translatedString := "";
          isTranslating := true;
          runs := runs[id := runs[id].(phase := Loading(task))];
      }
    }

    /** The run finishing with outcome `o` after it set the flag: the
        deferred reset clears it. */
    method Exit(id: nat, o: Outcome)
      requires Valid()
      requires id < |runs| && Active(runs[id].phase)
      requires forall r :: 0 <= r < id ==> runs[r].phase.Done?
      modifies this
      ensures Valid()
      ensures runs == old(runs)[id := old(runs[id]).(phase := Done(o))]
      ensures !isTranslating
      ensures translatedString == old(translatedString) && translationTask == old(translationTask)
      ensures translatorLoadingTask == old(translatorLoadingTask) && loadCount == old(loadCount)
      ensures loadResults == old(loadResults) && pendingDownloads == old(pendingDownloads)
      ensures mode == old(mode) && style == old(style) && sourceString == old(sourceString)
    {
      Step(runs, translationTask, translatedString, isTranslating, id, Done(o), translatedString);
      runs := runs[id := runs[id].(phase := Done(o))];
      isTranslating := false;
    }

    /** The await on the run's loading task returning: a failed
        construction is rethrown; a translator starts the stream of the
        prompt built from what the run captured, which is returned. Nothing
        happens while the construction has not completed. */
    method LoadFinished(id: nat) returns (prompt: Option<string>)
      requires Valid()
      modifies this
      ensures Valid()
      ensures !(id < |old(runs)| && old(runs[id]).phase.Loading? && old(runs[id]).phase.task.id in loadResults) ==>
        prompt == None && runs == old(runs) && isTranslating == old(isTranslating) && translatedString == old(translatedString)
      ensures id < |old(runs)| && old(runs[id]).phase.Loading? && old(runs[id]).phase.task.id in loadResults ==>
        var run := old(runs[id]);
        var result := loadResults[run.phase.task.id];
        (result.Fail? ==>
          prompt == None && runs == old(runs)[id := run.(phase := Done(result))] && !isTranslating)
        && (result.Pass? ==>
          prompt == Translation.Prompt(run.source, run.mode, run.style)
          && runs == old(runs)[id := run.(phase := Streaming([]))] && isTranslating)
      ensures translatedString == old(translatedString) && translationTask == old(translationTask)
      ensures translatorLoadingTask == old(translatorLoadingTask) && loadCount == old(loadCount)
      ensures loadResults == old(loadResults) && pendingDownloads == old(pendingDownloads)
      ensures mode == old(mode) && style == old(style) && sourceString == old(sourceString)
    {
      if id >= |runs| || !runs[id].phase.Loading? || runs[id].phase.task.id !in loadResults {
        return None;
      }
      var run := runs[id];
      assert id > 0 ==> Started(runs[id].phase);
      PredecessorsDone(runs, translationTask, translatedString, isTranslating, id);
      match loadResults[run.phase.task.id] {
        case Fail(e) =>
          prompt := None;
          Exit(id, Fail(e));
        case Pass =>
          prompt := Translation.Prompt(run.source, run.mode, run.style);
          Step(runs, translationTask, translatedString, isTranslating, id, Streaming([]), translatedString);
          runs := runs[id := run.(phase := Streaming([]))];
      }
    }

    /** The body of the `for try await` loop over one batch: append each
        fragment to the output, in order. */
    method AppendFragments(fragments: seq<string>)
      modifies this`translatedString
      ensures translatedString == old(translatedString) + Concat(fragments)
    {
      var i := 0;
      while i < |fragments|
        invariant 0 <= i <= |fragments|
        invariant translatedString == old(translatedString) + Concat(fragments[..i])
      {
        assert fragments[..i + 1] == fragments[..i] + [fragments[i]];
        ConcatSnoc(fragments[..i], fragments[i]);
        translatedString := translatedString + fragments[i];
        i := i + 1;
      }
      assert fragments[..i] == fragments;
    }

    /** Fragments arriving from the translator: each is appended to the
        output in order. Once the run is cancelled, the stream hands out what
        it had already buffered and then ends: the batch is appended and the
        run finishes normally. Nothing happens unless the run is streaming. */
    method Receive(id: nat, fragments: seq<string>) returns (appended: bool)
      requires Valid()
      modifies this
      ensures Valid()
      ensures appended <==> id < |old(runs)| && old(runs[id]).phase.Streaming?
      ensures appended ==>
        translatedString == old(translatedString) + Concat(fragments)
        && translatedString == Concat(old(runs[id]).phase.received + fragments)
      ensures appended && !old(runs[id]).cancelled ==>
        runs == old(runs)[id := old(runs[id]).(phase := Streaming(old(runs[id]).phase.received + fragments))]
        && isTranslating
      ensures appended && old(runs[id]).cancelled ==>
        runs == old(runs)[id := old(runs[id]).(phase := Done(Pass))] && !isTranslating
      ensures !appended ==> runs == old(runs) && isTranslating == old(isTranslating) && translatedString == old(translatedString)
      ensures translationTask == old(translationTask)
      ensures translatorLoadingTask == old(translatorLoadingTask) && loadCount == old(loadCount)
      ensures loadResults == old(loadResults) && pendingDownloads == old(pendingDownloads)
      ensures mode == old(mode) && style == old(style) && sourceString == old(sourceString)
    {
      if id >= |runs| || !runs[id].phase.Streaming? {
        return false;
      }
      appended := true;
      assert id > 0 ==> Started(runs[id].phase);
      PredecessorsDone(runs, translationTask, translatedString, isTranslating, id);
      var received := runs[id].phase.received;
      ConcatAppend(received, fragments);
      var next := if runs[id].cancelled then Done(Pass) else Streaming(received + fragments);
      Step(runs, translationTask, translatedString, isTranslating, id, next, Concat(received + fragments));
      AppendFragments(fragments);
      runs := runs[id := runs[id].(phase := next)];
      isTranslating := !next.Done?;
    }

    /** The translator's stream ending: normally, or with its error, which
        the run rethrows; the flag is reset either way. */
    method EndStream(id: nat, failure: Option<Error>) returns (ended: bool)
      requires Valid()
      modifies this
      ensures Valid()
      ensures ended <==> id < |old(runs)| && old(runs[id]).phase.Streaming?
      ensures ended ==>
        runs == old(runs)[id := old(runs[id]).(phase := Done(if failure.Some? then Fail(failure.value) else Pass))]
        && !isTranslating
      ensures !ended ==> runs == old(runs) && isTranslating == old(isTranslating)
      ensures translatedString == old(translatedString) && translationTask == old(translationTask)
      ensures translatorLoadingTask == old(translatorLoadingTask) && loadCount == old(loadCount)
      ensures loadResults == old(loadResults) && pendingDownloads == old(pendingDownloads)
      ensures mode == old(mode) && style == old(style) && sourceString == old(sourceString)
    {
      if id >= |runs| || !runs[id].phase.Streaming? {
        return false;
      }
      ended := true;
      assert id > 0 ==> Started(runs[id].phase);
      PredecessorsDone(runs, translationTask, translatedString, isTranslating, id);
      Exit(id, if failure.Some? then Fail(failure.value) else Pass);
    }
  }
}
