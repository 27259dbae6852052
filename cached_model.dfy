/** `CachedModel`: whether the model file is on disk, and the one download
    that may be in flight. The state is derived from two optional fields;
    `update()` re-derives the file's presence from the file system, and
    `download()` either joins the recorded download or records a new one
    and clears the record once it finishes.

    A download is split into the events the await points separate: the
    call that records (or joins) it, the run of its task body, and the
    recording caller resuming after the task completed. A task is an opaque
    number; its outcome, once it has one, is kept in `results` so that every
    caller awaiting it sees the same one. */
module Cache {
  import opened Common
  import opened Files
  import Downloads

  /** `ModelSource`: a display name and the URL to download from. */
  datatype ModelSource = ModelSource(name: string, url: Url)

  /** `ModelSource.default`. */
  const DefaultSource: ModelSource := ModelSource(
    "C3TR-Adapter-Q4_k_m",
    Url("https", "huggingface.co",
        ["webbigdata", "C3TR-Adapter_gguf", "resolve", "main", "C3TR-Adapter-Q4_k_m.gguf"], false))

  /** `ModelSource.fileName`: the name the file is cached under. */
  function FileName(source: ModelSource): string {
    LastPathComponent(source.url)
  }

  lemma DefaultFileName()
    ensures FileName(DefaultSource) == "C3TR-Adapter-Q4_k_m.gguf"
  {
  }

  /** What the process tells the core about where it runs:
      `Bundle.main.bundleIdentifier`, and what looking up the
      application-support directory returns or throws. */
  datatype Environment = Environment(bundleIdentifier: Option<string>, supportDirectory: Result<Url>)

  /** `modelsDirectory`. */
  function ModelsDirectory(env: Environment): Result<Url> {
    ApplicationSupportDirectory(env.bundleIdentifier, env.supportDirectory, "Models")
  }

  /** `modelsDirectory.appending(component: source.fileName)`. */
  function ModelFile(directory: Url, source: ModelSource): (r: Url)
    ensures LastPathComponent(r) == FileName(source)
    ensures PathOf(r) == PathOf(directory) + [FileName(source)]
  {
    AppendingComponent(directory, FileName(source))
  }

  /** The `Progress` of a download: opaque. */
  datatype Progress = Progress(id: nat)

  /** The `Download` struct: the task and its progress. */
  datatype DownloadRecord = DownloadRecord(task: nat, progress: Progress)

  datatype State = Loading(progress: Option<Progress>) | Available(url: Url) | Unavailable

  /** `state`: loading while a download is recorded, otherwise available
      when the URL is known, otherwise unavailable. */
  function StateOf(download: Option<DownloadRecord>, url: Option<Url>): State {
    if download.Some? then Loading(Some(download.value.progress))
    else if url.Some? then Available(url.value)
    else Unavailable
  }

  /** The URL `update()` leaves: the model file's when it exists, `None`
      when it does not, and the old one when the models directory cannot
      be resolved (the call throws before assigning). */
  function RefreshedUrl(env: Environment, source: ModelSource, entries: map<Path, Kind>, url: Option<Url>): Option<Url> {
    match ModelsDirectory(env)
    case Err(_) => url
    case Ok(directory) =>
      if PathOf(ModelFile(directory, source)) in entries then Some(ModelFile(directory, source)) else None
  }

  /** `update()` twice, with the file system unchanged, is `update()` once. */
  lemma RefreshIdempotent(env: Environment, source: ModelSource, entries: map<Path, Kind>, url: Option<Url>)
    ensures RefreshedUrl(env, source, entries, RefreshedUrl(env, source, entries, url))
         == RefreshedUrl(env, source, entries, url)
  {
  }

  /** After a refresh the URL, when there is one, names an existing file
      called after the source; without a models directory it is untouched. */
  lemma RefreshedUrlMeaning(env: Environment, source: ModelSource, entries: map<Path, Kind>, url: Option<Url>)
    ensures ModelsDirectory(env).Err? ==> RefreshedUrl(env, source, entries, url) == url
    ensures ModelsDirectory(env).Ok? ==>
      var file := ModelFile(ModelsDirectory(env).value, source);
      (RefreshedUrl(env, source, entries, url).Some? <==> PathOf(file) in entries)
      && (RefreshedUrl(env, source, entries, url).Some? ==> RefreshedUrl(env, source, entries, url).value == file)
  {
  }

  /** How a `download()` call went on: it joined the recorded task, or it
      recorded a new one (and is now awaiting it). */
  datatype DownloadCall = Joined(task: nat) | Started(task: nat)

  class CachedModel {
    const source: ModelSource
    const env: Environment
    const fs: FileSystem
    var download: Option<DownloadRecord>
    var url: Option<Url>
    /** The number of tasks created so far; the next task's identity. */
    var taskCount: nat
    /** The outcome of every task that has completed. */
    var results: map<nat, Outcome>

    function State(): State
      reads this
    {
      StateOf(download, url)
    }

    /** The URL, when known, is the model file of the source in the models
        directory. */
    predicate UrlIsModelFile()
      reads this
    {
      url.Some? ==> ModelsDirectory(env).Ok? && url.value == ModelFile(ModelsDirectory(env).value, source)
    }

    constructor (source: ModelSource, env: Environment, fs: FileSystem)
      ensures this.source == source && this.env == env && this.fs == fs
      ensures download == None && url == None && taskCount == 0 && results == map[]
      ensures State() == Unavailable && UrlIsModelFile()
    {
      this.source := source;
      this.env := env;
      this.fs := fs;
      download := None;
      url := None;
      taskCount := 0;
      results := map[];
    }

    /** `update()`. */
    method Update() returns (o: Outcome)
      modifies this
      ensures url == RefreshedUrl(env, source, fs.entries, old(url))
      ensures o.Fail? <==> ModelsDirectory(env).Err?
      ensures o.Fail? ==> o.error == ModelsDirectory(env).error
      ensures o.Pass? || old(UrlIsModelFile()) ==> UrlIsModelFile()
      ensures download == old(download) && taskCount == old(taskCount) && results == old(results)
    {
      var directory := ModelsDirectory(env);
      if directory.Err? {
        return Fail(directory.error);
      }
      var file := ModelFile(directory.value, source);
      if fs.FileExists(file) {
        url := Some(file);
      } else {
        url := None;
      }
      o := Pass;
    }

    /** The synchronous part of `download()`: join the recorded download,
        or create a task and record it before awaiting it. */
    method Download() returns (call: DownloadCall)
      modifies this
      ensures old(download).Some? ==> call == Joined(old(download).value.task) && download == old(download)
      ensures old(download).Some? ==> taskCount == old(taskCount)
      ensures old(download).None? ==>
        call == Started(old(taskCount)) && taskCount == old(taskCount) + 1
        && download == Some(DownloadRecord(old(taskCount), Progress(old(taskCount))))
      ensures State().Loading?
      ensures url == old(url) && results == old(results)
      ensures forall t :: Awaited(t) == old(Awaited(t))
    {
      if download.Some? {
        call := Joined(download.value.task);
      } else {
        var task := taskCount;
        taskCount := taskCount + 1;
        download := Some(DownloadRecord(task, Progress(task)));
        call := Started(task);
      }
    }

    /** Task `task` has been created by `download()` and has not completed. */
    predicate Runnable(task: nat)
      reads this
    {
      task < taskCount && task !in results
    }

    /** The body of the task `resumeDownload()` creates: resolve the models
        directory, create it excluded from backup, download into the model
        file, and record its URL. `None` when the transfer never resumes
        the continuation, and when the task is not runnable, in which case
        nothing happens. */
    method RunDownloadTask(task: nat, transfer: Downloads.Transfer) returns (o: Option<Outcome>)
      modifies this, fs
      ensures !old(Runnable(task)) ==> o == None && url == old(url) && results == old(results) && fs.State() == old(fs.State())
      ensures old(Runnable(task)) && ModelsDirectory(env).Err? ==>
        o == Some(Fail(ModelsDirectory(env).error)) && fs.State() == old(fs.State())
      ensures old(Runnable(task)) && ModelsDirectory(env).Ok? ==>
        var created := CreateDirectorySpec(old(fs.State()), ModelsDirectory(env).value, true);
        created.0.Fail? ==> o == Some(created.0) && fs.State() == old(fs.State())
      ensures old(Runnable(task)) && ModelsDirectory(env).Ok? ==>
        var file := ModelFile(ModelsDirectory(env).value, source);
        var created := CreateDirectorySpec(old(fs.State()), ModelsDirectory(env).value, true);
        var (move, moved) := MoveItemSpec(created.1.entries, PathOf(transfer.temporaryFile), PathOf(file));
        var rs := Downloads.Resumptions(transfer, move);
        created.0.Pass? ==>
          o == (if rs == [] then None else Some(rs[0]))
          && fs.entries == (if transfer.finishDelivered && Downloads.MovesFile(transfer.taskError, transfer.response)
                            then moved else created.1.entries)
          && fs.excludedFromBackup == created.1.excludedFromBackup
          && url == (if o == Some(Pass) then Some(file) else old(url))
      ensures o == Some(Pass) ==>
        ModelsDirectory(env).Ok? && url == Some(ModelFile(ModelsDirectory(env).value, source))
        && fs.FileExists(url.value)
      ensures o != Some(Pass) ==> url == old(url)
      ensures old(UrlIsModelFile()) ==> UrlIsModelFile()
      ensures results == if o.Some? then old(results)[task := o.value] else old(results)
      ensures forall t :: t != task ==> Awaited(t) == old(Awaited(t))
      ensures download == old(download) && taskCount == old(taskCount)
    {
      if !Runnable(task) {
        return None;
      }
      var directory := ModelsDirectory(env);
      if directory.Err? {
        o := Some(Fail(directory.error));
      } else {
        var created := fs.CreateDirectory(directory.value, true);
        if created.Fail? {
          o := Some(created);
        } else {
          var file := ModelFile(directory.value, source);
          o := Downloads.ResumeDownloading(fs, transfer, file);
          if o == Some(Pass) {
            url := Some(file);
          }
        }
      }
      if o.Some? {
        results := results[task := o.value];
      }
    }

    /** The outcome a caller awaiting `task` receives, once it has one. */
    function Awaited(task: nat): (r: Option<Outcome>)
      reads this
      ensures r.Some? <==> task in results
      ensures r.Some? ==> r.value == results[task]
    {
      if task in results then Some(results[task]) else None
    }

    /** The recording `download()` resuming after its task completed: clear
        the record on success and on failure alike, and return (or rethrow)
        the task's outcome. While the task has not completed, the caller is
        still suspended and nothing happens; nor does anything happen unless
        the record is the one this caller stored. */
    method ResumeStarter(task: nat) returns (o: Option<Outcome>)
      modifies this
      ensures o.Some? <==> old(download).Some? && old(download).value.task == task && task in old(results)
      ensures o.Some? ==> o == Awaited(task) && download == None && !State().Loading?
      ensures o.None? ==> download == old(download)
      ensures forall t :: Awaited(t) == old(Awaited(t))
      ensures url == old(url) && taskCount == old(taskCount) && results == old(results)
    {
      if download.Some? && download.value.task == task && task in results {
        o := Awaited(task);
        download := None;
      } else {
        o := None;
      }
    }
  }
}
