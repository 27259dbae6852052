/** `Model`: the cached model file plus the task that loads it into an
    inference engine. Its state mirrors the cache's; `load()`,
    `download()` and `purge()` first refresh the cache and then act only
    in the state they are guarded by.

    Tasks are events here too. A loading task is a number and the file it
    loads; its completion is `CompleteLoad`. `download()` spawns a task that
    runs later: `StartSpawnedDownload` is that task calling the cache's
    `download()`, and `FinishSpawnedDownload` is the same task resuming
    after it. */
module Models {
  import opened Common
  import opened Files
  import Cache

  datatype State = Unavailable | Downloading(progress: Option<Cache.Progress>) | Available(url: Url)

  /** `state`: the cache's loading state reads as downloading; the other two
      cases carry over as they are. */
  function StateFor(s: Cache.State): State {
    match s
    case Unavailable => Unavailable
    case Loading(progress) => Downloading(progress)
    case Available(url) => Available(url)
  }

  /** The cache state a model state stands for. */
  function CacheStateFor(s: State): Cache.State {
    match s
    case Unavailable => Cache.Unavailable
    case Downloading(progress) => Cache.Loading(progress)
    case Available(url) => Cache.Available(url)
  }

  /** The mapping is one-to-one, case for case, with the same progress or
      URL. */
  lemma StateMirrorsCache(s: Cache.State, m: State)
    ensures CacheStateFor(StateFor(s)) == s
    ensures StateFor(CacheStateFor(m)) == m
    ensures StateFor(s).Unavailable? <==> s.Unavailable?
    ensures StateFor(s).Downloading? <==> s.Loading?
    ensures StateFor(s).Available? <==> s.Available?
  {
  }

  /** A loading task: its identity and the file it loads. */
  datatype LoadTask = LoadTask(id: nat, url: Url)

  /** A loaded `LlamaModel`, bound to the file it was loaded from. */
  datatype Engine = Engine(modelUrl: Url)

  /** What awaiting `llamaModel` gives: `nil` with no loading task, the
      engine, or the loading error; or nothing yet while the task runs. */
  datatype Lookup = NoModel | Pending(task: nat) | Loaded(engine: Engine) | LoadFailed(error: Error)

  function LookupFor(loadingTask: Option<LoadTask>, loadResults: map<nat, Outcome>): (r: Lookup)
    ensures r == NoModel <==> loadingTask.None?
    ensures r.Loaded? ==> loadingTask.Some? && r.engine == Engine(loadingTask.value.url)
    ensures r.Pending? <==> loadingTask.Some? && loadingTask.value.id !in loadResults
    ensures loadingTask.Some? && loadingTask.value.id in loadResults && loadResults[loadingTask.value.id] == Pass ==>
      r == Loaded(Engine(loadingTask.value.url))
    ensures loadingTask.Some? && loadingTask.value.id in loadResults && loadResults[loadingTask.value.id].Fail? ==>
      r == LoadFailed(loadResults[loadingTask.value.id].error)
  {
    match loadingTask
    case None => NoModel
    case Some(t) =>
      if t.id !in loadResults then Pending(t.id)
      else
        match loadResults[t.id]
        case Pass => Loaded(Engine(t.url))
        case Fail(e) => LoadFailed(e)
  }

  class Model {
    const cachedModel: Cache.CachedModel
    var loadingTask: Option<LoadTask>
    /** The number of loading tasks created so far. */
    var loadCount: nat
    /** The outcome of every loading task that has completed. */
    var loadResults: map<nat, Outcome>
    /** Download tasks spawned by `download()` that have not run yet. */
    var pendingDownloads: nat

    constructor (cachedModel: Cache.CachedModel)
      ensures this.cachedModel == cachedModel
      ensures loadingTask == None && loadCount == 0 && loadResults == map[] && pendingDownloads == 0
    {
      this.cachedModel := cachedModel;
      loadingTask := None;
      loadCount := 0;
      loadResults := map[];
      pendingDownloads := 0;
    }

    function State(): (s: State)
      reads this, cachedModel
      ensures CacheStateFor(s) == cachedModel.State()
      ensures cachedModel.UrlIsModelFile() && s.Available? ==> LastPathComponent(s.url) == Cache.FileName(Source())
    {
      StateFor(cachedModel.State())
    }

    function Source(): (s: Cache.ModelSource)
      reads this
      ensures s == cachedModel.source
    {
      cachedModel.source
    }

    /** `llamaModel`. */
    function LlamaModel(): Lookup
      reads this
    {
      LookupFor(loadingTask, loadResults)
    }

    /** `update()`: refresh the cache and swallow its error. */
    method Update()
      modifies cachedModel
      ensures cachedModel.url == Cache.RefreshedUrl(cachedModel.env, cachedModel.source, cachedModel.fs.entries, old(cachedModel.url))
      ensures cachedModel.download == old(cachedModel.download)
      ensures cachedModel.taskCount == old(cachedModel.taskCount) && cachedModel.results == old(cachedModel.results)
    {
      var _ := cachedModel.Update();
    }

    /** `load()`: refresh, then start a new loading task for the file when
        it is available; otherwise keep the current one. */
    method Load()
      modifies this, cachedModel
      ensures cachedModel.url == Cache.RefreshedUrl(cachedModel.env, cachedModel.source, cachedModel.fs.entries, old(cachedModel.url))
      ensures cachedModel.download == old(cachedModel.download)
      ensures cachedModel.taskCount == old(cachedModel.taskCount) && cachedModel.results == old(cachedModel.results)
      ensures cachedModel.State().Available? ==>
        loadingTask == Some(LoadTask(old(loadCount), cachedModel.State().url)) && loadCount == old(loadCount) + 1
      ensures !cachedModel.State().Available? ==> loadingTask == old(loadingTask) && loadCount == old(loadCount)
      ensures loadResults == old(loadResults) && pendingDownloads == old(pendingDownloads)
    {
      Update();
      var s := cachedModel.State();
      if !s.Available? {
        return;
      }
      loadingTask := Some(LoadTask(loadCount, s.url));
      loadCount := loadCount + 1;
    }

    /** The loading task with identity `id` completing: the engine was
        constructed, or construction failed. Nothing happens unless that
        task was started and has not completed. */
    method CompleteLoad(id: nat, constructed: bool) returns (completed: bool)
      modifies this
      ensures completed <==> id < old(loadCount) && id !in old(loadResults)
      ensures loadResults == if completed then old(loadResults)[id := if constructed then Pass else Fail(ConstructionFailed)]
                             else old(loadResults)
      ensures loadingTask == old(loadingTask) && loadCount == old(loadCount) && pendingDownloads == old(pendingDownloads)
    {
      completed := id < loadCount && id !in loadResults;
      if completed {
        loadResults := loadResults[id := if constructed then Pass else Fail(ConstructionFailed)];
      }
    }

    /** `download()`: refresh, then spawn a download task only when the file
        is unavailable; while downloading or available, do nothing. */
    method Download() returns (spawned: bool)
      modifies this, cachedModel
      ensures cachedModel.url == Cache.RefreshedUrl(cachedModel.env, cachedModel.source, cachedModel.fs.entries, old(cachedModel.url))
      ensures cachedModel.download == old(cachedModel.download)
      ensures cachedModel.taskCount == old(cachedModel.taskCount) && cachedModel.results == old(cachedModel.results)
      ensures spawned <==> cachedModel.State().Unavailable?
      ensures pendingDownloads == old(pendingDownloads) + (if spawned then 1 else 0)
      ensures loadingTask == old(loadingTask) && loadCount == old(loadCount) && loadResults == old(loadResults)
    {
      Update();
      spawned := cachedModel.State().Unavailable?;
      if spawned {
        pendingDownloads := pendingDownloads + 1;
      }
    }

    /** A spawned download task starting: it calls the cache's `download()`. */
    method StartSpawnedDownload() returns (call: Option<Cache.DownloadCall>)
      modifies this, cachedModel
      ensures old(pendingDownloads) == 0 ==> call == None && pendingDownloads == 0
      ensures old(pendingDownloads) > 0 ==> call.Some? && pendingDownloads == old(pendingDownloads) - 1
      ensures old(pendingDownloads) > 0 && old(cachedModel.download).Some? ==>
        call == Some(Cache.Joined(old(cachedModel.download).value.task)) && cachedModel.download == old(cachedModel.download)
        && cachedModel.taskCount == old(cachedModel.taskCount)
      ensures old(pendingDownloads) > 0 && old(cachedModel.download).None? ==>
        call == Some(Cache.Started(old(cachedModel.taskCount))) && cachedModel.taskCount == old(cachedModel.taskCount) + 1
        && cachedModel.download == Some(Cache.DownloadRecord(old(cachedModel.taskCount), Cache.Progress(old(cachedModel.taskCount))))
      ensures old(pendingDownloads) > 0 ==> cachedModel.State().Loading?
      ensures old(pendingDownloads) == 0 ==> cachedModel.download == old(cachedModel.download) && cachedModel.taskCount == old(cachedModel.taskCount)
      ensures cachedModel.url == old(cachedModel.url) && cachedModel.results == old(cachedModel.results)
      ensures loadingTask == old(loadingTask) && loadCount == old(loadCount) && loadResults == old(loadResults)
    {
      if pendingDownloads == 0 {
        return None;
      }
      pendingDownloads := pendingDownloads - 1;
      var c := cachedModel.Download();
      call := Some(c);
    }

    /** A spawned download task resuming after the cache's `download()`:
        load on success; swallow a failure and load nothing. Nothing happens
        while the download has not completed. */
    method FinishSpawnedDownload(call: Cache.DownloadCall) returns (outcome: Option<Outcome>)
      modifies this, cachedModel
      ensures call.Joined? ==> outcome == old(cachedModel.Awaited(call.task))
      ensures call.Started? ==>
        outcome == if old(cachedModel.download).Some? && old(cachedModel.download).value.task == call.task
                   then old(cachedModel.Awaited(call.task)) else None
      ensures call.Started? && outcome.Some? ==> cachedModel.download == None
      ensures call.Joined? || outcome.None? ==> cachedModel.download == old(cachedModel.download)
      ensures cachedModel.taskCount == old(cachedModel.taskCount) && cachedModel.results == old(cachedModel.results)
      ensures outcome == Some(Pass) ==>
        cachedModel.url == Cache.RefreshedUrl(cachedModel.env, cachedModel.source, cachedModel.fs.entries, old(cachedModel.url))
      ensures outcome != Some(Pass) ==> cachedModel.url == old(cachedModel.url)
      ensures outcome != Some(Pass) || !cachedModel.State().Available? ==>
        loadingTask == old(loadingTask) && loadCount == old(loadCount)
      ensures outcome == Some(Pass) && cachedModel.State().Available? ==>
        loadingTask == Some(LoadTask(old(loadCount), cachedModel.State().url)) && loadCount == old(loadCount) + 1
      ensures loadResults == old(loadResults) && pendingDownloads == old(pendingDownloads)
    {
      if call.Started? {
        outcome := cachedModel.ResumeStarter(call.task);
      } else {
        outcome := cachedModel.Awaited(call.task);
      }
      if outcome == Some(Pass) {
        Load();
      }
    }

    /** `purge()`: refresh, then drop the loading task only when the cache's
        purge succeeds. The cache's purge is not defined by the cache, so
        its outcome is an input and its effect on the file is not modelled. */
    method Purge(cachePurge: Outcome)
      modifies this, cachedModel
      ensures cachedModel.url == Cache.RefreshedUrl(cachedModel.env, cachedModel.source, cachedModel.fs.entries, old(cachedModel.url))
      ensures cachedModel.download == old(cachedModel.download)
      ensures cachedModel.taskCount == old(cachedModel.taskCount) && cachedModel.results == old(cachedModel.results)
      ensures loadingTask == if cachePurge.Pass? then None else old(loadingTask)
      ensures cachePurge.Pass? ==> LlamaModel() == NoModel
      ensures loadCount == old(loadCount) && loadResults == old(loadResults) && pendingDownloads == old(pendingDownloads)
    {
      Update();
      if cachePurge.Pass? {
        loadingTask := None;
      }
    }
  }
}
