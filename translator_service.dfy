/** `TranslatorService`: the observable settings and input, the accumulated
    output, and the run that owns the "translation task" slot.

    Every call of `translate(debounce:)` creates one run: a task that, once
    it starts, cancels the run that held the slot before it and awaits it,
    and only then translates the input it captured when it was created.
    The await points split a run into the events below; the runs are kept
    in creation order, and a run's identity (the `Box` the source compares
    with `===`) is its index. The predicate `Serialized` is what makes the
    cancel-and-await step worth having: no run gets past it while an
    earlier run has not finished, so at most one run is ever past it and
    unfinished (`AtMostOneActive`), and only that run writes the output. */
module Service {
  import opened Common
  import opened Translation
  import Models

  /** Where a run's task stands. */
  datatype Phase =
    | Created                          // created, not started yet
    | Awaiting                         // cancelled the previous run and awaits it
    | Sleeping                         // waiting out the debounce delay
    | LoadingModel(task: Option<Models.LoadTask>)
                                       // awaiting `model.llamaModel`, which read the
                                       // loading task once, when the await began
    | Streaming(received: seq<string>) // consuming the engine's fragments
    | Done(outcome: Outcome)           // returned or threw; the slot rule has run

  /** Past the await on the previous run. */
  predicate Started(p: Phase) {
    !p.Created? && !p.Awaiting?
  }

  /** Past the await on the previous run and not finished. */
  predicate Active(p: Phase) {
    Started(p) && !p.Done?
  }

  /** One run: what it captured when it was created (input, mode, style,
      whether to debounce, the run then in the slot), whether it has been
      cancelled, and its phase. */
  datatype Run = Run(input: string, mode: Mode, style: Style, debounce: bool,
                     previous: Option<nat>, cancelled: bool, phase: Phase)

  /** The engine a run streams from and the arguments it passes to
      `Translator.prompt`. */
  datatype PromptRequest = PromptRequest(engine: Models.Engine, mode: Mode, style: Style, input: string)

  /** Every run created before `g` has finished. */
  predicate DoneBefore(runs: seq<Run>, g: nat) {
    forall r :: 0 <= r < g && r < |runs| ==> runs[r].phase.Done?
  }

  /** Two histories that agree, up to `g`, on which runs have finished agree
      on `DoneBefore`. */
  lemma DoneBeforeAgree(runs: seq<Run>, runs': seq<Run>, g: nat)
    requires |runs| == |runs'|
    requires forall r :: 0 <= r < g && r < |runs| ==> (runs'[r].phase.Done? <==> runs[r].phase.Done?)
    ensures DoneBefore(runs', g) <==> DoneBefore(runs, g)
  {
  }

  /** The invariant of the runs and the slot:
      - a slot that is set holds the newest run, which has not finished;
      - an empty slot means every run has finished;
      - a run's previous run is the one created just before it;
      - a run created with an empty slot came after finished runs only;
      - a run that got past its await comes after finished runs only. */
  predicate Serialized(runs: seq<Run>, slot: Option<nat>) {
    (slot.Some? ==> slot.value == |runs| - 1 && !runs[slot.value].phase.Done?)
    && (slot.None? ==> DoneBefore(runs, |runs|))
    && (forall g :: 0 <= g < |runs| && runs[g].previous.Some? ==> runs[g].previous.value == g - 1)
    && (forall g :: 0 <= g < |runs| && runs[g].previous.None? ==> DoneBefore(runs, g))
    && (forall g :: 0 <= g < |runs| && Started(runs[g].phase) ==> DoneBefore(runs, g))
  }

  /** At most one run is active at any time. */
  lemma AtMostOneActive(runs: seq<Run>, slot: Option<nat>)
    requires Serialized(runs, slot)
    ensures forall a, b :: 0 <= a < |runs| && 0 <= b < |runs| && Active(runs[a].phase) && Active(runs[b].phase) ==> a == b
  {
    forall a, b | 0 <= a < |runs| && 0 <= b < |runs| && Active(runs[a].phase) && Active(runs[b].phase)
      ensures a == b
    {
      assert DoneBefore(runs, a) && DoneBefore(runs, b);
    }
  }

  /** `isTranslating` (the slot is set) holds exactly when some run has not
      finished. */
  lemma SlotMeansUnfinished(runs: seq<Run>, slot: Option<nat>)
    requires Serialized(runs, slot)
    ensures slot.Some? <==> exists g :: 0 <= g < |runs| && !runs[g].phase.Done?
  {
    if slot.Some? {
      assert !runs[slot.value].phase.Done?;
    }
  }

  /** A run whose previous run has finished (or that had none) may go on:
      every earlier run has finished. */
  lemma PredecessorsDone(runs: seq<Run>, slot: Option<nat>, id: nat)
    requires Serialized(runs, slot) && id < |runs|
    requires runs[id].previous.Some? ==> runs[runs[id].previous.value].phase.Done?
    ensures DoneBefore(runs, id)
  {
    if runs[id].previous.Some? {
      var p := runs[id].previous.value;
      assert p == id - 1;
      forall r | 0 <= r < id ensures runs[r].phase.Done? {
        if r < p {
          assert Started(runs[p].phase) && DoneBefore(runs, p);
        }
      }
    }
  }

  /** The whole invariant of the service, over its runs, its slot and its
      output: the runs obey `Serialized`; an active run has an input that
      does not trim to nothing; and while a run streams, the output is
      exactly the fragments it has received. */
  predicate Consistent(runs: seq<Run>, slot: Option<nat>, output: string) {
    Serialized(runs, slot)
    && (forall g :: 0 <= g < |runs| && Active(runs[g].phase) ==> Trim(runs[g].input) != "")
    && (forall g :: 0 <= g < |runs| && runs[g].phase.Streaming? ==> output == Concat(runs[g].phase.received))
  }

  /** A run whose earlier runs have all finished moves to a phase past its
      await; a finishing run clears the slot when the slot holds it. The
      output may be anything unless the run now streams, because no other
      run is active. */
  lemma Step(runs: seq<Run>, slot: Option<nat>, output: string, id: nat, phase: Phase, output': string)
    requires Consistent(runs, slot, output) && id < |runs| && !runs[id].phase.Done?
    requires DoneBefore(runs, id)
    requires Started(phase)
    requires Active(phase) ==> Trim(runs[id].input) != ""
    requires phase.Streaming? ==> output' == Concat(phase.received)
    ensures Consistent(runs[id := runs[id].(phase := phase)], if phase.Done? && slot == Some(id) then None else slot, output')
  {
    var runs' := runs[id := runs[id].(phase := phase)];
    var slot' := if phase.Done? && slot == Some(id) then None else slot;
    forall g | id < g < |runs| ensures !Started(runs[g].phase) && runs[g].previous.Some? {
      assert !DoneBefore(runs, g) by {
        assert id < g && !runs[id].phase.Done?;
      }
    }
    forall g | 0 <= g <= id ensures DoneBefore(runs', g) <==> DoneBefore(runs, g) {
      DoneBeforeAgree(runs, runs', g);
    }
    if slot'.None? {
      assert slot == Some(id) && phase.Done?;
      assert DoneBefore(runs', |runs'|) by {
        assert DoneBefore(runs', id);
      }
    }
  }

  /** A run that was created starts to await its previous run, which is
      marked cancelled. */
  lemma BeginStep(runs: seq<Run>, slot: Option<nat>, output: string, id: nat)
    requires Consistent(runs, slot, output) && id < |runs| && runs[id].phase == Created
    ensures var marked := runs[id := runs[id].(phase := Awaiting)];
      var previous := runs[id].previous;
      Consistent(if previous.Some? then marked[previous.value := marked[previous.value].(cancelled := true)] else marked, slot, output)
  {
    var marked := runs[id := runs[id].(phase := Awaiting)];
    var previous := runs[id].previous;
    var runs' := if previous.Some? then marked[previous.value := marked[previous.value].(cancelled := true)] else marked;
    assert |runs'| == |runs|;
    assert forall g :: 0 <= g < |runs| ==>
      runs'[g].phase == (if g == id then Awaiting else runs[g].phase)
      && runs'[g].previous == runs[g].previous && runs'[g].input == runs[g].input;
    forall g | 0 <= g <= |runs| ensures DoneBefore(runs', g) <==> DoneBefore(runs, g) {
      DoneBeforeAgree(runs, runs', g);
    }
  }

  /** A new run, created but not started and capturing the slot as its
      previous run, becomes the newest one and takes the slot. */
  lemma RequestStep(runs: seq<Run>, slot: Option<nat>, output: string, run: Run)
    requires Consistent(runs, slot, output) && run.phase == Created && run.previous == slot
    ensures Consistent(runs + [run], Some(|runs|), output)
  {
    var runs' := runs + [run];
    forall g | 0 <= g <= |runs| ensures DoneBefore(runs', g) <==> DoneBefore(runs, g) {
      assert forall r :: 0 <= r < g && r < |runs| ==> runs'[r] == runs[r];
    }
  }

  class TranslatorService {
    var isAutomaticTranslationEnabled: bool
    var mode: Mode
    var style: Style
    var inputString: string
    var translatedString: string
    const model: Models.Model
    /** The run in the slot, when there is one. */
    var translationTask: Option<nat>
    /** Every run created so far, in creation order. */
    var runs: seq<Run>
    /** Tasks spawned by `inputDidChange()` that have not called
        `translate(debounce:)` yet. */
    var pendingRequests: nat

    ghost predicate Valid()
      reads this
    {
      Consistent(runs, translationTask, translatedString)
    }

    /** The model is a parameter: the source's initializer calls a
        `CachedModel` initializer that `CachedModel` does not declare. */
    constructor (model: Models.Model)
      ensures Valid()
      ensures this.model == model
      ensures isAutomaticTranslationEnabled && mode == Mode.Automatic && style == Technical
      ensures inputString == "" && translatedString == ""
      ensures translationTask == None && runs == [] && pendingRequests == 0
    {
      isAutomaticTranslationEnabled := true;
      mode := Mode.Automatic;
      style := Technical;
      inputString := "";
      translatedString := "";
      this.model := model;
      translationTask := None;
      runs := [];
      pendingRequests := 0;
    }

    /** `isTranslating`: some run has not finished. */
    function IsTranslating(): (b: bool)
      reads this
      ensures Valid() ==> (b <==> exists g :: 0 <= g < |runs| && !runs[g].phase.Done?)
    {
      translationTask.Some?
    }

    /** `inputDidChange()`: spawn a debounced request, only while automatic
        translation is on. */
    method InputDidChange()
      modifies this
      ensures pendingRequests == old(pendingRequests) + (if isAutomaticTranslationEnabled then 1 else 0)
      ensures isAutomaticTranslationEnabled == old(isAutomaticTranslationEnabled)
      ensures mode == old(mode) && style == old(style) && inputString == old(inputString)
      ensures translatedString == old(translatedString) && translationTask == old(translationTask) && runs == old(runs)
    {
      if isAutomaticTranslationEnabled {
        pendingRequests := pendingRequests + 1;
      }
    }

    /** Assigning `isAutomaticTranslationEnabled`: a change triggers
        `inputDidChange()`, which requests only when the new value is on. */
    method SetAutomaticTranslationEnabled(value: bool)
      requires Valid()
      modifies this
      ensures Valid()
      ensures isAutomaticTranslationEnabled == value
      ensures pendingRequests == old(pendingRequests) + (if !old(isAutomaticTranslationEnabled) && value then 1 else 0)
      ensures mode == old(mode) && style == old(style) && inputString == old(inputString)
      ensures translatedString == old(translatedString) && translationTask == old(translationTask) && runs == old(runs)
    {
      var oldValue := isAutomaticTranslationEnabled;
      isAutomaticTranslationEnabled := value;
      if oldValue != isAutomaticTranslationEnabled {
        InputDidChange();
      }
    }

    /** Assigning `mode`: a change requests while automatic translation is on. */
    method SetMode(value: Mode)
      requires Valid()
      modifies this
      ensures Valid()
      ensures mode == value
      ensures pendingRequests == old(pendingRequests) + (if old(mode) != value && isAutomaticTranslationEnabled then 1 else 0)
      ensures isAutomaticTranslationEnabled == old(isAutomaticTranslationEnabled) && style == old(style) && inputString == old(inputString)
      ensures translatedString == old(translatedString) && translationTask == old(translationTask) && runs == old(runs)
    {
      var oldValue := mode;
      mode := value;
      if oldValue != mode {
        InputDidChange();
      }
    }

    /** Assigning `style`: a change requests while automatic translation is on. */
    method SetStyle(value: Style)
      requires Valid()
      modifies this
      ensures Valid()
      ensures style == value
      ensures pendingRequests == old(pendingRequests) + (if old(style) != value && isAutomaticTranslationEnabled then 1 else 0)
      ensures isAutomaticTranslationEnabled == old(isAutomaticTranslationEnabled) && mode == old(mode) && inputString == old(inputString)
      ensures translatedString == old(translatedString) && translationTask == old(translationTask) && runs == old(runs)
    {
      var oldValue := style;
      style := value;
      if oldValue != style {
        InputDidChange();
      }
    }

    /** Assigning `inputString`: a change requests while automatic
        translation is on. */
    method SetInputString(value: string)
      requires Valid()
      modifies this
      ensures Valid()
      ensures inputString == value
      ensures pendingRequests == old(pendingRequests) + (if old(inputString) != value && isAutomaticTranslationEnabled then 1 else 0)
      ensures isAutomaticTranslationEnabled == old(isAutomaticTranslationEnabled) && mode == old(mode) && style == old(style)
      ensures translatedString == old(translatedString) && translationTask == old(translationTask) && runs == old(runs)
    {
      var oldValue := inputString;
      inputString := value;
      if oldValue != inputString {
        InputDidChange();
      }
    }

    /** `translate(debounce:)`: capture the input, mode, style and the run
        in the slot, create a run, and put it in the slot. */
    method Request(debounce: bool) returns (id: nat)
      requires Valid()
      modifies this
      ensures Valid()
      ensures id == |old(runs)|
      ensures runs == old(runs) + [Run(inputString, mode, style, debounce, old(translationTask), false, Created)]
      ensures translationTask == Some(id)
      ensures isAutomaticTranslationEnabled == old(isAutomaticTranslationEnabled) && mode == old(mode) && style == old(style)
      ensures inputString == old(inputString) && translatedString == old(translatedString) && pendingRequests == old(pendingRequests)
    {
      id := |runs|;
      RequestStep(runs, translationTask, translatedString, Run(inputString, mode, style, debounce, translationTask, false, Created));
      runs := runs + [Run(inputString, mode, style, debounce, translationTask, false, Created)];
      translationTask := Some(id);
    }

    /** A task spawned by `inputDidChange()` running: a debounced request.
        `None` when no such task is pending. */
    method StartPendingRequest() returns (id: Option<nat>)
      requires Valid()
      modifies this
      ensures Valid()
      ensures old(pendingRequests) == 0 ==>
        id == None && pendingRequests == 0 && runs == old(runs) && translationTask == old(translationTask)
      ensures old(pendingRequests) > 0 ==>
        id == Some(|old(runs)|) && pendingRequests == old(pendingRequests) - 1
        && runs == old(runs) + [Run(inputString, mode, style, true, old(translationTask), false, Created)]
        && translationTask == id
      ensures isAutomaticTranslationEnabled == old(isAutomaticTranslationEnabled) && mode == old(mode) && style == old(style)
      ensures inputString == old(inputString) && translatedString == old(translatedString)
    {
      if pendingRequests == 0 {
        return None;
      }
      pendingRequests := pendingRequests - 1;
      var r := Request(true);
      id := Some(r);
    }

    /** The public `translate()`: nothing while automatic translation is on;
        otherwise a request without debounce. */
    method Translate() returns (id: Option<nat>)
      requires Valid()
      modifies this
      ensures Valid()
      ensures isAutomaticTranslationEnabled ==> id == None && runs == old(runs) && translationTask == old(translationTask)
      ensures !isAutomaticTranslationEnabled ==>
        id == Some(|old(runs)|)
        && runs == old(runs) + [Run(inputString, mode, style, false, old(translationTask), false, Created)]
        && translationTask == id
      ensures isAutomaticTranslationEnabled == old(isAutomaticTranslationEnabled) && mode == old(mode) && style == old(style)
      ensures inputString == old(inputString) && translatedString == old(translatedString) && pendingRequests == old(pendingRequests)
    {
      if isAutomaticTranslationEnabled {
        return None;
      }
      var r := Request(false);
      id := Some(r);
    }

    /** The run's task starting: it cancels the previous run, if any, and
        begins to await it. Nothing happens unless the run was created and
        has not started. */
    method Begin(id: nat) returns (began: bool)
      requires Valid()
      modifies this
      ensures Valid()
      ensures began <==> id < |old(runs)| && old(runs[id]).phase == Created
      ensures began ==>
        var previous := old(runs[id]).previous;
        var marked := old(runs)[id := old(runs[id]).(phase := Awaiting)];
        runs == if previous.Some? then marked[previous.value := marked[previous.value].(cancelled := true)] else marked
      ensures !began ==> runs == old(runs)
      ensures translationTask == old(translationTask) && translatedString == old(translatedString)
      ensures isAutomaticTranslationEnabled == old(isAutomaticTranslationEnabled) && mode == old(mode) && style == old(style)
      ensures inputString == old(inputString) && pendingRequests == old(pendingRequests)
    {
      if id >= |runs| || runs[id].phase != Created {
        return false;
      }
      began := true;
      BeginStep(runs, translationTask, translatedString, id);
      runs := runs[id := runs[id].(phase := Awaiting)];
      var previous := runs[id].previous;
      if previous.Some? {
        var p := previous.value;
        runs := runs[p := runs[p].(cancelled := true)];
      }
    }

    /** Run `id`, every earlier run having finished, moves to `phase`, past
        its await, while the output went from `before` to what it is now; a
        finishing run clears the slot only when the slot still holds it. */
    method Advance(id: nat, phase: Phase, ghost before: string)
      requires Consistent(runs, translationTask, before) && id < |runs| && !runs[id].phase.Done?
      requires DoneBefore(runs, id)
      requires Started(phase)
      requires Active(phase) ==> Trim(runs[id].input) != ""
      requires phase.Streaming? ==> translatedString == Concat(phase.received)
      modifies this`runs, this`translationTask
      ensures Valid()
      ensures runs == old(runs)[id := old(runs[id]).(phase := phase)]
      ensures translationTask == if phase.Done? && old(translationTask) == Some(id) then None else old(translationTask)
    {
      Step(runs, translationTask, before, id, phase, translatedString);
      runs := runs[id := runs[id].(phase := phase)];
      if phase.Done? && translationTask == Some(id) {
        translationTask := None;
      }
    }

    /** The run finishing with outcome `o`; the deferred slot rule clears
        the slot only when it still holds this run. */
    method Exit(id: nat, o: Outcome)
      requires Valid()
      requires id < |runs| && !runs[id].phase.Done?
      requires DoneBefore(runs, id)
      modifies this`runs, this`translationTask, this`translatedString
      ensures Valid()
      ensures runs == old(runs)[id := old(runs[id]).(phase := Done(o))]
      ensures translationTask == if old(translationTask) == Some(id) then None else old(translationTask)
      ensures translatedString == old(translatedString)
    {
      Advance(id, Done(o), translatedString);
    }

    /** The run resuming after its previous run finished (or at once when it
        had none): an input that trims to nothing clears the output and
        finishes; otherwise the run sleeps when debounced and else goes on
        to load the model. Nothing happens while the previous run is still
        unfinished. */
    method Resume(id: nat) returns (resumed: bool)
      requires Valid()
      modifies this`runs, this`translationTask, this`translatedString
      ensures Valid()
      ensures resumed <==>
        id < |old(runs)| && old(runs[id]).phase == Awaiting
        && (old(runs[id]).previous.Some? ==> old(runs)[old(runs[id]).previous.value].phase.Done?)
      ensures !resumed ==> runs == old(runs) && translatedString == old(translatedString) && translationTask == old(translationTask)
      ensures resumed && Trim(old(runs[id]).input) == "" ==>
        translatedString == ""
        && runs == old(runs)[id := old(runs[id]).(phase := Done(Pass))]
        && translationTask == if old(translationTask) == Some(id) then None else old(translationTask)
      ensures resumed && Trim(old(runs[id]).input) != "" ==>
        translatedString == old(translatedString) && translationTask == old(translationTask)
        && runs == old(runs)[id := old(runs[id]).(phase := if old(runs[id]).debounce then Sleeping else LoadingModel(model.loadingTask))]
      ensures resumed ==> DoneBefore(runs, id)
    {
      if id >= |runs| || runs[id].phase != Awaiting {
        return false;
      }
      var previous := runs[id].previous;
      if previous.Some? && !runs[previous.value].phase.Done? {
        return false;
      }
      resumed := true;
      PredecessorsDone(runs, translationTask, id);
      if Trim(runs[id].input) == "" {
        ghost var before := translatedString;
        translatedString := "";
        Advance(id, Done(Pass), before);
      } else {
        Advance(id, if runs[id].debounce then Sleeping else LoadingModel(model.loadingTask), translatedString);
      }
    }

    /** The debounce delay elapsing: a run cancelled meanwhile throws the
        sleep's cancellation error; otherwise it goes on to load the model. */
    method Wake(id: nat) returns (woke: bool)
      requires Valid()
      modifies this`runs, this`translationTask, this`translatedString
      ensures Valid()
      ensures woke <==> id < |old(runs)| && old(runs[id]).phase == Sleeping
      ensures !woke ==> runs == old(runs) && translationTask == old(translationTask)
      ensures woke && old(runs[id]).cancelled ==>
        runs == old(runs)[id := old(runs[id]).(phase := Done(Fail(Cancelled)))]
        && translationTask == if old(translationTask) == Some(id) then None else old(translationTask)
      ensures woke && !old(runs[id]).cancelled ==>
        runs == old(runs)[id := old(runs[id]).(phase := LoadingModel(model.loadingTask))] && translationTask == old(translationTask)
      ensures translatedString == old(translatedString)
    {
      if id >= |runs| || runs[id].phase != Sleeping {
        return false;
      }
      woke := true;
      assert Started(runs[id].phase);
      if runs[id].cancelled {
        Exit(id, Fail(Cancelled));
      } else {
        Advance(id, LoadingModel(model.loadingTask), translatedString);
      }
    }

    /** The await on `model.llamaModel` returning. The getter read the
        loading task when the await began, so the outcome is that task's,
        whatever has happened to the model's task since: without a task the
        run throws "no model available" at once; a failed load rethrows its
        error; both leave the output as it was. A loaded engine clears the
        output and starts the stream, from that engine, of the prompt built
        from the captured mode and style and the trimmed captured input,
        which is returned. Nothing happens while the task is still loading. */
    method LoadModel(id: nat) returns (request: Option<PromptRequest>)
      requires Valid()
      modifies this`runs, this`translationTask, this`translatedString
      ensures Valid()
      ensures !(id < |old(runs)| && old(runs[id]).phase.LoadingModel?) ==>
        request == None && runs == old(runs) && translationTask == old(translationTask) && translatedString == old(translatedString)
      ensures id < |old(runs)| && old(runs[id]).phase.LoadingModel? ==>
        var lookup := Models.LookupFor(old(runs[id]).phase.task, model.loadResults);
        (lookup.Pending? ==>
           request == None && runs == old(runs) && translationTask == old(translationTask) && translatedString == old(translatedString))
        && (lookup.NoModel? || lookup.LoadFailed? ==>
              request == None && translatedString == old(translatedString)
              && runs == old(runs)[id := old(runs[id]).(phase := Done(Fail(
                   if lookup.NoModel? then NoModelAvailable else lookup.error)))]
              && translationTask == if old(translationTask) == Some(id) then None else old(translationTask))
      ensures id < |old(runs)| && old(runs[id]).phase.LoadingModel? && old(runs[id]).phase.task.Some? ==>
        var run := old(runs[id]);
        var task := run.phase.task.value;
        task.id in model.loadResults && model.loadResults[task.id] == Pass ==>
          request == Some(PromptRequest(Models.Engine(task.url), run.mode, run.style, Trim(run.input))) && Trim(run.input) != ""
          && translatedString == "" && translationTask == old(translationTask)
          && runs == old(runs)[id := run.(phase := Streaming([]))]
    {
      if id >= |runs| || !runs[id].phase.LoadingModel? {
        return None;
      }
      var lookup := Models.LookupFor(runs[id].phase.task, model.loadResults);
      if lookup.Pending? {
        return None;
      }
      PredecessorsDone(runs, translationTask, id);
      if !lookup.Loaded? {
        request := None;
        Exit(id, Fail(if lookup.NoModel? then NoModelAvailable else lookup.error));
        return;
      }
      var run := runs[id];
      request := Some(PromptRequest(lookup.engine, run.mode, run.style, Trim(run.input)));
      StartStream(id);
    }

    /** The engine at hand: the output is cleared and the run streams, having
        received nothing yet. */
    method StartStream(id: nat)
      requires Valid()
      requires id < |runs| && runs[id].phase.LoadingModel?
      requires DoneBefore(runs, id)
      modifies this`runs, this`translationTask, this`translatedString
      ensures Valid()
      ensures Trim(old(runs[id]).input) != ""
      ensures translatedString == "" && translationTask == old(translationTask)
      ensures runs == old(runs)[id := old(runs[id]).(phase := Streaming([]))]
    {
      ghost var before := translatedString;
      translatedString := "";
      Advance(id, Streaming([]), before);
    }

    /** The body of the `for try await` loop over one batch: append each
        fragment to the output, in order. */
    method AppendFragments(fragments: seq<string>)
      modifies this`translatedString
      ensures translatedString == old(translatedString) + Concat(fragments)
    {
      var i := 0;
      while i < |fragments|
        invariant 0 <= i <= |fragments|
        invariant translatedString == old(translatedString) + Concat(fragments[..i])
      {
        assert fragments[..i + 1] == fragments[..i] + [fragments[i]];
        ConcatSnoc(fragments[..i], fragments[i]);
        translatedString := translatedString + fragments[i];
        i := i + 1;
      }
      assert fragments[..i] == fragments;
    }

    /** Fragments arriving from the engine: each is appended to the output
        in order. Once the run is cancelled, the stream hands out what it had
        already buffered and then ends: the batch is appended and the run
        finishes normally. Nothing happens unless the run is streaming. */
    method Receive(id: nat, fragments: seq<string>) returns (appended: bool)
      requires Valid()
      modifies this`runs, this`translationTask, this`translatedString
      ensures Valid()
      ensures appended <==> id < |old(runs)| && old(runs[id]).phase.Streaming?
      ensures appended ==>
        translatedString == old(translatedString) + Concat(fragments)
        && translatedString == Concat(old(runs[id]).phase.received + fragments)
      ensures appended && !old(runs[id]).cancelled ==>
        runs == old(runs)[id := old(runs[id]).(phase := Streaming(old(runs[id]).phase.received + fragments))]
        && translationTask == old(translationTask)
      ensures appended && old(runs[id]).cancelled ==>
        runs == old(runs)[id := old(runs[id]).(phase := Done(Pass))]
        && translationTask == if old(translationTask) == Some(id) then None else old(translationTask)
      ensures !appended ==> runs == old(runs) && translationTask == old(translationTask) && translatedString == old(translatedString)
    {
      if id >= |runs| || !runs[id].phase.Streaming? {
        return false;
      }
      appended := true;
      PredecessorsDone(runs, translationTask, id);
      var received := runs[id].phase.received;
      var next := if runs[id].cancelled then Done(Pass) else Streaming(received + fragments);
      ghost var before := translatedString;
      assert Consistent(runs, translationTask, before) && before == Concat(received);
      assert Active(next) ==> Trim(runs[id].input) != "";
      AppendFragments(fragments);
      ConcatAppend(received, fragments);
      assert translatedString == Concat(received + fragments);
      Advance(id, next, before);
    }

    /** The engine's stream ending: normally, or with its error, which the
        run rethrows. */
    method EndStream(id: nat, failure: Option<Error>) returns (ended: bool)
      requires Valid()
      modifies this`runs, this`translationTask, this`translatedString
      ensures Valid()
      ensures ended <==> id < |old(runs)| && old(runs[id]).phase.Streaming?
      ensures ended ==>
        runs == old(runs)[id := old(runs[id]).(phase := Done(if failure.Some? then Fail(failure.value) else Pass))]
        && translationTask == if old(translationTask) == Some(id) then None else old(translationTask)
      ensures !ended ==> runs == old(runs) && translationTask == old(translationTask)
      ensures translatedString == old(translatedString)
    {
      if id >= |runs| || !runs[id].phase.Streaming? {
        return false;
      }
      ended := true;
      PredecessorsDone(runs, translationTask, id);
      Exit(id, if failure.Some? then Fail(failure.value) else Pass);
    }
  }
}
