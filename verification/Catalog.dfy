/**
  Model catalog refresh of one provider id: generations, aborts and the promise chain
  that decides which asynchronous publication may touch the store and the provider's
  dynamic models. Callers may abandon a publication at any time; its body still runs.
*/
module Catalog {
  import opened Wrappers

  /** Of a model, only the provider it is recorded for matters here. */
  datatype Model = Model(provider: string, id: string)

  type Models = seq<Model>

  /** What a restore takes over of a stored catalog. */
  function OwnedBy(models: Models, provider: string): (own: Models)
    ensures forall m :: m in own <==> m in models && m.provider == provider
  {
    if models == [] then []
    else (if models[0].provider == provider then [models[0]] else []) + OwnedBy(models[1..], provider)
  }

  datatype Persist = Keep | Delete | Write(models: Models)

  /** How far the body of a publication got. `Writing` spans the store operation. */
  datatype Progress = Queued | Writing(effected: bool) | Written | Settled(published: bool)

  datatype Publication = Publication(
    generation: nat, persist: Persist, update: Option<Models>, aborted: bool, progress: Progress)

  datatype Mark = Began(generation: nat) | MutationStarted(generation: nat, index: nat) | Updated(generation: nat, index: nat)

  datatype State = State(
    generation: nat,
    store: Option<Models>,
    dynamic: Models,
    stored: map<nat, Option<Models>>,   // what each generation last read from the store
    chain: seq<Publication>,            // in the order in which they were queued
    trace: seq<Mark>)

  function Init(store: Option<Models>, dynamic: Models): State {
    State(0, store, dynamic, map[], [], [])
  }

  datatype Step =
    | Begin                                          // a refresh begins, or the provider is replaced
    | Read(generation: nat)                          // a refresh phase reads the store
    | Publish(generation: nat, persist: Persist, update: Option<Models>)
    | Abort(i: nat)                                  // the signal of publication i aborts
    | Start(i: nat)                                  // its turn in the chain has come
    | Effect(i: nat)                                 // its store operation takes effect
    | Finish(i: nat, ok: bool)                       // its store operation settles
    | Recheck(i: nat)

  predicate Current(s: State, p: Publication) {
    !p.aborted && s.generation == p.generation
  }

  predicate Enabled(s: State, step: Step) {
    match step
    case Begin => true
    case Read(g) => g <= s.generation
    case Publish(g, _, _) => g <= s.generation
    case Abort(i) => i < |s.chain|
    case Start(i) => i < |s.chain| && s.chain[i].progress.Queued? && (i > 0 ==> s.chain[i - 1].progress.Settled?)
    case Effect(i) => i < |s.chain| && s.chain[i].progress == Writing(false)
    case Finish(i, ok) => i < |s.chain| && s.chain[i].progress.Writing? && (ok ==> s.chain[i].progress.effected)
    case Recheck(i) => i < |s.chain| && s.chain[i].progress.Written?
  }

  function To(s: State, i: nat, progress: Progress): State
    requires i < |s.chain|
  {
    s.(chain := s.chain[i := s.chain[i].(progress := progress)])
  }

  /** The synchronous end of a body: recheck, update, settle. */
  function Complete(s: State, i: nat): State
    requires i < |s.chain|
  {
    var p := s.chain[i];
    if !Current(s, p) then To(s, i, Settled(false))
    else
      To(s, i, Settled(true)).(
        dynamic := if p.update.Some? then p.update.value else s.dynamic,
        trace := if p.update.Some? then s.trace + [Updated(p.generation, i)] else s.trace)
  }

  function Next(s: State, step: Step): State
    requires Enabled(s, step)
  {
    match step
    case Begin => s.(generation := s.generation + 1, trace := s.trace + [Began(s.generation + 1)])
    case Read(g) => s.(stored := s.stored[g := s.store])
    case Publish(g, persist, update) => s.(chain := s.chain + [Publication(g, persist, update, false, Queued)])
    case Abort(i) => s.(chain := s.chain[i := s.chain[i].(aborted := true)])
    case Start(i) =>
      if !Current(s, s.chain[i]) then To(s, i, Settled(false))
      else if s.chain[i].persist.Keep? then Complete(s, i)
      else To(s, i, Writing(false)).(trace := s.trace + [MutationStarted(s.chain[i].generation, i)])
    case Effect(i) =>
      To(s, i, Writing(true)).(
        store := if s.chain[i].persist.Write? then Some(s.chain[i].persist.models) else None)
    case Finish(i, ok) => To(s, i, if ok then Written else Settled(false))
    case Recheck(i) => Complete(s, i)
  }

  function Run(s: State, steps: seq<Step>): Option<State> {
    if steps == [] then Some(s)
    else
      var before := Run(s, steps[..|steps|-1]);
      if before.Some? && Enabled(before.value, steps[|steps|-1]) then Some(Next(before.value, steps[|steps|-1])) else None
  }

  // ----- The invariant -----

  predicate Active(p: Publication) { p.progress.Writing? || p.progress.Written? }

  /** The chain is settled publications, then at most one running body, then queued ones. */
  ghost predicate Serial(chain: seq<Publication>) {
    forall i, j :: 0 <= i < j < |chain| ==> chain[i].progress.Settled? || chain[j].progress.Queued?
  }

  ghost predicate Chronological(trace: seq<Mark>, generation: nat) {
    && (forall i, j :: 0 <= i < j < |trace| ==> trace[i].generation <= trace[j].generation)
    && (forall i :: 0 <= i < |trace| ==> trace[i].generation <= generation)
  }

  /** The last publication that started a mutation or applied an update, and which of the two. */
  function LastTouch(trace: seq<Mark>): Option<Mark> {
    if trace == [] then None
    else if !trace[|trace|-1].Began? then Some(trace[|trace|-1])
    else LastTouch(trace[..|trace|-1])
  }

  /** A publication that persists the very models it installs, as the network phase of a refresh does. */
  predicate PublishesWhatItPersists(p: Publication) {
    p.persist.Write? && p.update == Some(p.persist.models)
  }

  /** The running body, if there is one, is the last publication that touched anything. */
  ghost predicate RunningTouchedLast(s: State) {
    forall i :: 0 <= i < |s.chain| && Active(s.chain[i]) ==>
      LastTouch(s.trace) == Some(MutationStarted(s.chain[i].generation, i))
  }

  /** Once its store operation took effect, the store holds what the running body persists. */
  ghost predicate RunningStored(s: State) {
    forall i :: 0 <= i < |s.chain| && (s.chain[i].progress == Writing(true) || s.chain[i].progress.Written?) ==>
      s.store == if s.chain[i].persist.Write? then Some(s.chain[i].persist.models) else None
  }

  /** What the last touch left behind, when it was an update. */
  ghost predicate LastUpdateStands(s: State) {
    var last := LastTouch(s.trace);
    last.Some? && last.value.Updated? ==>
      && last.value.index < |s.chain|
      && var p := s.chain[last.value.index];
      && p.progress == Settled(true)
      && p.update == Some(s.dynamic)
      && (p.persist.Write? ==> s.store == Some(p.persist.models))
      && (p.persist.Delete? ==> s.store == None)
  }

  ghost predicate Inv(s: State) {
    && Serial(s.chain)
    && Chronological(s.trace, s.generation)
    && RunningTouchedLast(s) && RunningStored(s) && LastUpdateStands(s)
  }

  /** A body that is about to be the running one finds every other one settled or queued. */
  lemma OthersIdle(chain: seq<Publication>, i: nat)
    requires Serial(chain) && i < |chain|
    requires !chain[i].progress.Settled? && (i > 0 ==> chain[i - 1].progress.Settled? || Active(chain[i]))
    ensures forall j :: 0 <= j < |chain| && j != i ==> !Active(chain[j])
  {
    assert forall j :: 0 <= j < i - 1 ==> chain[j].progress.Settled? || chain[i - 1].progress.Queued?;
  }

  lemma SettleKeepsInv(s: State, i: nat, published: bool)
    requires Inv(s) && i < |s.chain| && !s.chain[i].progress.Settled?
    requires i > 0 ==> s.chain[i - 1].progress.Settled? || Active(s.chain[i])
    ensures Inv(To(s, i, Settled(published)))
    ensures forall j :: 0 <= j < |s.chain| ==> !Active(To(s, i, Settled(published)).chain[j])
  {
    OthersIdle(s.chain, i);
    var s' := To(s, i, Settled(published));
    assert s'.trace == s.trace;
    assert forall j :: 0 <= j < |s.chain| && j != i ==> s'.chain[j] == s.chain[j];
  }

  lemma UpdateKeepsInv(s: State, i: nat, models: Models)
    requires Inv(s) && i < |s.chain| && s.chain[i].progress == Settled(true) && s.chain[i].update == Some(models)
    requires forall j :: 0 <= j < |s.chain| ==> !Active(s.chain[j])
    requires s.chain[i].generation == s.generation
    requires s.chain[i].persist.Write? ==> s.store == Some(s.chain[i].persist.models)
    requires s.chain[i].persist.Delete? ==> s.store == None
    ensures Inv(s.(dynamic := models, trace := s.trace + [Updated(s.generation, i)]))
  {
    var s' := s.(dynamic := models, trace := s.trace + [Updated(s.generation, i)]);
    assert s'.trace[..|s'.trace|-1] == s.trace;
  }

  /** Finishing the body of publication i, with or without a store operation before it. */
  lemma CompleteKeepsInv(s: State, i: nat)
    requires Inv(s) && i < |s.chain|
    requires s.chain[i].progress.Written?
             || (s.chain[i].progress.Queued? && s.chain[i].persist.Keep? && (i > 0 ==> s.chain[i - 1].progress.Settled?))
    ensures Inv(Complete(s, i))
  {
    var p := s.chain[i];
    SettleKeepsInv(s, i, Current(s, p));
    if Current(s, p) && p.update.Some? {
      UpdateKeepsInv(To(s, i, Settled(true)), i, p.update.value);
    }
  }

  lemma StartKeepsInv(s: State, i: nat)
    requires Inv(s) && Enabled(s, Start(i)) && Current(s, s.chain[i]) && !s.chain[i].persist.Keep?
    ensures Inv(Next(s, Start(i)))
  {
    var s' := Next(s, Start(i));
    OthersIdle(s.chain, i);
    assert s'.trace[..|s'.trace|-1] == s.trace;
    assert forall j :: 0 <= j < |s.chain| && j != i ==> s'.chain[j] == s.chain[j];
  }

  lemma StoreStepKeepsInv(s: State, step: Step)
    requires Inv(s) && Enabled(s, step) && (step.Effect? || step.Finish?)
    ensures Inv(Next(s, step))
  {
    var s' := Next(s, step);
    OthersIdle(s.chain, step.i);
    assert forall j :: 0 <= j < |s.chain| && j != step.i ==> s'.chain[j] == s.chain[j];
    assert s'.trace == s.trace;
  }

  lemma QuietStepKeepsInv(s: State, step: Step)
    requires Inv(s) && Enabled(s, step)
    requires step.Begin? || step.Read? || step.Publish? || step.Abort?
             || (step.Start? && !Current(s, s.chain[step.i]))
    ensures Inv(Next(s, step))
  {
    var s' := Next(s, step);
    if step.Begin? {
      assert s'.trace[..|s'.trace|-1] == s.trace;
    }
    assert LastTouch(s'.trace) == LastTouch(s.trace);
  }

  lemma NextKeepsInv(s: State, step: Step)
    requires Inv(s) && Enabled(s, step)
    ensures Inv(Next(s, step))
  {
    match step
    case Effect(_) => StoreStepKeepsInv(s, step);
    case Finish(_, _) => StoreStepKeepsInv(s, step);
    case Recheck(i) => CompleteKeepsInv(s, i);
    case Start(i) =>
      if !Current(s, s.chain[i]) {
        QuietStepKeepsInv(s, step);
      } else if s.chain[i].persist.Keep? {
        CompleteKeepsInv(s, i);
      } else {
        StartKeepsInv(s, i);
      }
    case _ => QuietStepKeepsInv(s, step);
  }

  lemma {:induction false} RunKeepsInv(store: Option<Models>, dynamic: Models, steps: seq<Step>)
    requires Run(Init(store, dynamic), steps).Some?
    ensures Inv(Run(Init(store, dynamic), steps).value)
  {
    if steps != [] {
      RunKeepsInv(store, dynamic, steps[..|steps|-1]);
      NextKeepsInv(Run(Init(store, dynamic), steps[..|steps|-1]).value, steps[|steps|-1]);
    }
  }

  // ----- The theorems, for every interleaving -----

  /** At most one publication body runs at a time, even when callers gave up waiting. */
  lemma OneBodyAtATime(store: Option<Models>, dynamic: Models, steps: seq<Step>, i: nat, j: nat)
    requires Run(Init(store, dynamic), steps).Some?
    requires var chain := Run(Init(store, dynamic), steps).value.chain;
             i < |chain| && j < |chain| && Active(chain[i]) && Active(chain[j])
    ensures i == j
  {
    RunKeepsInv(store, dynamic, steps);
  }

  /**
    Generations never go back along the trace: store mutations start in nondecreasing
    generation order, and after generation g has begun no publication of an earlier
    generation starts a mutation or applies its update.
  */
  lemma GenerationsNeverGoBack(store: Option<Models>, dynamic: Models, steps: seq<Step>, i: nat, j: nat)
    requires Run(Init(store, dynamic), steps).Some?
    requires i < j < |Run(Init(store, dynamic), steps).value.trace|
    ensures var trace := Run(Init(store, dynamic), steps).value.trace;
            trace[i].generation <= trace[j].generation
  {
    RunKeepsInv(store, dynamic, steps);
  }

  lemma {:induction false} RunConcat(s: State, steps: seq<Step>, more: seq<Step>)
    requires Run(s, steps + more).Some?
    ensures Run(s, steps).Some?
    ensures |Run(s, steps).value.chain| <= |Run(s, steps + more).value.chain|
    ensures Run(s, steps).value.trace <= Run(s, steps + more).value.trace
    ensures forall i :: 0 <= i < |Run(s, steps).value.chain| ==>
              Run(s, steps).value.chain[i].(aborted := false, progress := Queued)
              == Run(s, steps + more).value.chain[i].(aborted := false, progress := Queued)
  {
    if more == [] {
      assert steps + more == steps;
    } else {
      var shorter := more[..|more|-1];
      assert (steps + more)[..|steps + more| - 1] == steps + shorter;
      RunConcat(s, steps, shorter);
    }
  }

  lemma {:induction false} BeginningsTouchNothing(trace: seq<Mark>, more: seq<Mark>)
    requires forall k :: 0 <= k < |more| ==> more[k].Began?
    ensures LastTouch(trace + more) == LastTouch(trace)
  {
    if more == [] {
      assert trace + more == trace;
    } else {
      assert (trace + more)[..|trace + more| - 1] == trace + more[..|more|-1];
      BeginningsTouchNothing(trace, more[..|more|-1]);
    }
  }

  /** The step in which a publication with an update settles true is the one that applies it. */
  lemma SettlingUpdates(s: State, step: Step, i: nat)
    requires Enabled(s, step) && i < |s.chain| && !s.chain[i].progress.Settled?
    requires i < |Next(s, step).chain| && Next(s, step).chain[i].progress == Settled(true)
    requires s.chain[i].update.Some?
    ensures Next(s, step).trace == s.trace + [Updated(s.chain[i].generation, i)]
    ensures Next(s, step).chain[i].(progress := Queued) == s.chain[i].(progress := Queued)
  {
  }

  lemma AgreesWhileUntouched(s: State, later: State, i: nat)
    requires i < |s.chain| <= |later.chain| && PublishesWhatItPersists(s.chain[i])
    requires later.chain[i].persist == s.chain[i].persist && later.chain[i].update == s.chain[i].update
    requires |s.trace| > 0 && s.trace[|s.trace|-1].Updated? && s.trace[|s.trace|-1].index == i
    requires s.trace <= later.trace && forall k :: |s.trace| <= k < |later.trace| ==> later.trace[k].Began?
    requires LastUpdateStands(later)
    ensures later.dynamic == s.chain[i].persist.models && later.store == Some(later.dynamic)
  {
    BeginningsTouchNothing(s.trace, later.trace[|s.trace|..]);
    assert s.trace + later.trace[|s.trace|..] == later.trace;
  }

  /**
    When the body of a network publication i settles true, and for as long after that as
    only refreshes begin (no publication starts a mutation or applies an update), the
    persisted catalog and the dynamic models are both the models that i published.
  */
  lemma NetworkPublicationAgrees(
      store: Option<Models>, dynamic: Models, steps: seq<Step>, settling: Step, more: seq<Step>, i: nat)
    requires Run(Init(store, dynamic), steps + [settling] + more).Some?
    requires Run(Init(store, dynamic), steps).Some? && Run(Init(store, dynamic), steps + [settling]).Some?
    requires var was := Run(Init(store, dynamic), steps).value;
             var s := Run(Init(store, dynamic), steps + [settling]).value;
             && i < |was.chain| && !was.chain[i].progress.Settled? && i < |s.chain|
             && s.chain[i].progress == Settled(true) && PublishesWhatItPersists(s.chain[i])
    requires var s := Run(Init(store, dynamic), steps + [settling]).value;
             var later := Run(Init(store, dynamic), steps + [settling] + more).value;
             forall k :: |s.trace| <= k < |later.trace| ==> later.trace[k].Began?
    ensures var s := Run(Init(store, dynamic), steps + [settling]).value;
            var later := Run(Init(store, dynamic), steps + [settling] + more).value;
            later.dynamic == s.chain[i].persist.models && later.store == Some(later.dynamic)
  {
    var start := Init(store, dynamic);
    var was := Run(start, steps).value;
    assert (steps + [settling])[..|steps|] == steps;
    SettlingUpdates(was, settling, i);
    RunConcat(start, steps + [settling], more);
    RunKeepsInv(store, dynamic, steps + [settling] + more);
    AgreesWhileUntouched(Next(was, settling), Run(start, steps + [settling] + more).value, i);
  }

  /** The first refresh is writing when a second one begins, reads the store and restores. */
  function StaleRestore(cached: Models, fetched: Models, provider: string): seq<Step> {
    [Begin, Publish(1, Write(fetched), Some(fetched)), Start(0), Begin, Read(2),
     Effect(0), Finish(0, true), Recheck(0), Publish(2, Keep, Some(OwnedBy(cached, provider))), Start(1)]
  }

  predicate Stands(
      run: Option<State>, generation: nat, store: Option<Models>, dynamic: Models, chain: seq<Publication>)
  {
    && run.Some? && run.value.generation == generation && run.value.store == store
    && run.value.dynamic == dynamic && run.value.chain == chain
  }

  lemma RunStep(s: State, steps: seq<Step>, n: nat)
    requires 0 < n <= |steps|
    ensures Run(s, steps[..n])
            == if Run(s, steps[..n - 1]).Some? && Enabled(Run(s, steps[..n - 1]).value, steps[n - 1])
               then Some(Next(Run(s, steps[..n - 1]).value, steps[n - 1])) else None
  {
    assert steps[..n][..n - 1] == steps[..n - 1];
  }

  /** The models are what the store holds of this provider. */
  ghost predicate AgreesFor(s: State, provider: string) {
    s.store.Some? && s.dynamic == OwnedBy(s.store.value, provider)
  }

  /** The first refresh's write takes effect after the second refresh has read the store. */
  lemma SupersededWrite(cached: Models, fetched: Models, provider: string)
    ensures var first := Publication(1, Write(fetched), Some(fetched), false, Settled(false));
            Stands(Run(Init(Some(cached), cached), StaleRestore(cached, fetched, provider)[..8]),
                   2, Some(fetched), cached, [first])
  {
    var steps := StaleRestore(cached, fetched, provider);
    var start := Init(Some(cached), cached);
    WriteSettles(cached, fetched, provider);
    RunStep(start, steps, 8);
  }

  lemma WriteSettles(cached: Models, fetched: Models, provider: string)
    ensures var first := Publication(1, Write(fetched), Some(fetched), false, Written);
            Stands(Run(Init(Some(cached), cached), StaleRestore(cached, fetched, provider)[..7]),
                   2, Some(fetched), cached, [first])
  {
    var steps := StaleRestore(cached, fetched, provider);
    var start := Init(Some(cached), cached);
    WriteInFlight(cached, fetched, provider);
    RunStep(start, steps, 6);
    RunStep(start, steps, 7);
  }

  lemma WriteInFlight(cached: Models, fetched: Models, provider: string)
    ensures var first := Publication(1, Write(fetched), Some(fetched), false, Writing(false));
            Stands(Run(Init(Some(cached), cached), StaleRestore(cached, fetched, provider)[..5]),
                   2, Some(cached), cached, [first])
  {
    var steps := StaleRestore(cached, fetched, provider);
    var start := Init(Some(cached), cached);
    assert steps[..0] == [];
    RunStep(start, steps, 1);
    RunStep(start, steps, 2);
    RunStep(start, steps, 3);
    RunStep(start, steps, 4);
    RunStep(start, steps, 5);
  }

  /**
    The cached restore gives no such promise: a restore that read the store before an
    older write took effect settles true and leaves the store and the models different.
  */
  lemma RestoreMayBeStale(cached: Models, fetched: Models, provider: string)
    requires OwnedBy(cached, provider) != OwnedBy(fetched, provider)
    ensures var run := Run(Init(Some(cached), cached), StaleRestore(cached, fetched, provider));
            && run.Some?
            && run.value.chain[1].progress == Settled(true)
            && run.value.dynamic == OwnedBy(cached, provider) && run.value.store == Some(fetched)
            && !AgreesFor(run.value, provider)
  {
    var steps := StaleRestore(cached, fetched, provider);
    var start := Init(Some(cached), cached);
    SupersededWrite(cached, fetched, provider);
    RunStep(start, steps, 9);
    RunStep(start, steps, 10);
    assert steps[..10] == steps;
  }
  // ----- When a restore agrees with the store -----

  /** What the last store operation to take effect during the steps left behind; None when there was none. */
  function LastWritten(s: State, steps: seq<Step>): Option<Option<Models>> {
    if steps == [] then None
    else
      var before, last := Run(s, steps[..|steps|-1]), steps[|steps|-1];
      if last.Effect? && before.Some? && last.i < |before.value.chain| then
        Some(if before.value.chain[last.i].persist.Write? then Some(before.value.chain[last.i].persist.models) else None)
      else LastWritten(s, steps[..|steps|-1])
  }

  /** Only effects change the store, and the last one decides. */
  lemma {:induction false} StoreAfter(s: State, steps: seq<Step>)
    requires Run(s, steps).Some?
    ensures Run(s, steps).value.store == if LastWritten(s, steps).Some? then LastWritten(s, steps).value else s.store
  {
    if steps != [] {
      StoreAfter(s, steps[..|steps|-1]);
    }
  }

  /** Generations and the chain only grow, and a body that left the queue never goes back to it. */
  ghost predicate Later(s: State, t: State) {
    && s.generation <= t.generation && |s.chain| <= |t.chain|
    && forall j :: 0 <= j < |s.chain| ==>
         && s.chain[j].generation == t.chain[j].generation
         && s.chain[j].persist == t.chain[j].persist && s.chain[j].update == t.chain[j].update
         && (t.chain[j].progress.Queued? ==> s.chain[j].progress.Queued?)
  }

  lemma LaterNext(s: State, t: State, step: Step)
    requires Later(s, t) && Enabled(t, step)
    ensures Later(s, Next(t, step))
  {
  }

  lemma {:induction false} RunIsLater(s: State, steps: seq<Step>, n: nat)
    requires n <= |steps| && Run(s, steps).Some?
    ensures Run(s, steps[..n]).Some? && Later(Run(s, steps[..n]).value, Run(s, steps).value)
    decreases |steps|
  {
    if n == |steps| {
      assert steps[..n] == steps;
    } else {
      var shorter := steps[..|steps|-1];
      assert shorter[..n] == steps[..n];
      RunIsLater(s, shorter, n);
      LaterNext(Run(s, steps[..n]).value, Run(s, shorter).value, steps[|steps|-1]);
    }
  }

  ghost predicate NoneWriting(s: State) {
    forall j :: 0 <= j < |s.chain| ==> s.chain[j].progress != Writing(false)
  }

  /** What generation g still had to persist at s is not in front of publication i. */
  ghost predicate NothingToPersist(s: State, chain: seq<Publication>, i: nat, g: nat) {
    forall j :: 0 <= j < i && j < |chain| && chain[j].generation == g && !chain[j].persist.Keep? ==>
      j < |s.chain| && !s.chain[j].progress.Queued?
  }

  lemma NoWriteStarts(s: State, t: State, last: State, step: Step, i: nat, g: nat)
    requires Enabled(t, step) && NoneWriting(t)
    requires Later(s, t) && Later(Next(t, step), last) && g <= s.generation && last.generation == g
    requires i < |last.chain| && last.chain[i].progress.Queued? && Serial(last.chain)
    requires NothingToPersist(s, last.chain, i, g)
    ensures !step.Effect? && NoneWriting(Next(t, step))
  {
  }

  lemma {:induction false} NoWriteHappens(s: State, steps: seq<Step>, n: nat, i: nat, g: nat)
    requires n <= |steps| && Run(s, steps).Some? && NoneWriting(s) && g <= s.generation
    requires var last := Run(s, steps).value;
             && last.generation == g && i < |last.chain| && last.chain[i].progress.Queued? && Serial(last.chain)
             && NothingToPersist(s, last.chain, i, g)
    ensures Run(s, steps[..n]).Some? && NoneWriting(Run(s, steps[..n]).value) && LastWritten(s, steps[..n]).None?
    decreases n
  {
    RunIsLater(s, steps, n);
    if n > 0 {
      NoWriteHappens(s, steps, n - 1, i, g);
      RunStep(s, steps, n);
      assert steps[..n][..n - 1] == steps[..n - 1];
      RunIsLater(s, steps[..n - 1], 0);
      assert steps[..n - 1][..0] == [];
      NoWriteStarts(s, Run(s, steps[..n - 1]).value, Run(s, steps).value, steps[n - 1], i, g);
    }
  }

  lemma {:induction false} StoredStands(s: State, steps: seq<Step>, g: nat)
    requires Run(s, steps).Some? && g in s.stored
    requires forall k :: 0 <= k < |steps| ==> steps[k] != Read(g)
    ensures g in Run(s, steps).value.stored && Run(s, steps).value.stored[g] == s.stored[g]
  {
    if steps != [] {
      StoredStands(s, steps[..|steps|-1], g);
    }
  }

  lemma {:induction false} RunSplit(s: State, a: seq<Step>, b: seq<Step>)
    ensures Run(s, a + b) == if Run(s, a).Some? then Run(Run(s, a).value, b) else None
  {
    if b == [] {
      assert a + b == a;
    } else {
      assert (a + b)[..|a + b| - 1] == a + b[..|b|-1];
      RunSplit(s, a, b[..|b|-1]);
    }
  }

  /**
    A refresh phase of generation g: it reads the store at s, then publishes what it read of
    its own provider without persisting anything, as publication i, whose turn comes after
    the other steps.
    `last` is the state right before its body runs, and that body settles true.
  */
  ghost predicate IsRestore(s: State, provider: string, g: nat, untilPublished: seq<Step>, untilTurn: seq<Step>, i: nat, last: State) {
    && Enabled(s, Read(g)) && s.store.Some?
    && (forall k :: 0 <= k < |untilPublished| ==> untilPublished[k] != Read(g))
    && Enabled(last, Start(i)) && Current(last, last.chain[i])
    && var read := Next(s, Read(g));
       var published := Run(read, untilPublished);
       && published.Some? && i == |published.value.chain|
       && g in published.value.stored && published.value.stored[g].Some?
       && Run(read, untilPublished + [Publish(g, Keep, Some(OwnedBy(published.value.stored[g].value, provider)))] + untilTurn)
          == Some(last)
  }

  ghost function RestoreSteps(s: State, provider: string, g: nat, untilPublished: seq<Step>, untilTurn: seq<Step>): seq<Step>
    requires s.store.Some?
  {
    untilPublished + [Publish(g, Keep, Some(OwnedBy(s.store.value, provider)))] + untilTurn
  }

  lemma RestorePublishes(s: State, provider: string, g: nat, untilPublished: seq<Step>, untilTurn: seq<Step>, i: nat, last: State)
    requires IsRestore(s, provider, g, untilPublished, untilTurn, i, last)
    ensures Run(Next(s, Read(g)), RestoreSteps(s, provider, g, untilPublished, untilTurn)) == Some(last)
    ensures i < |last.chain| && last.chain[i].generation == g && last.chain[i].persist == Keep
    ensures last.chain[i].update == Some(OwnedBy(s.store.value, provider))
    ensures last.chain[i].progress.Queued? && last.generation == g
    ensures Next(last, Start(i)).dynamic == OwnedBy(s.store.value, provider) && Next(last, Start(i)).store == last.store
    ensures Next(last, Start(i)).chain[i].progress == Settled(true)
  {
    var read := Next(s, Read(g));
    StoredStands(read, untilPublished, g);
    var t := Run(read, untilPublished).value;
    var publish := Publish(g, Keep, Some(OwnedBy(s.store.value, provider)));
    var upTo := untilPublished + [publish];
    assert upTo[..|upTo|-1] == untilPublished;
    assert Run(read, upTo) == Some(Next(t, publish)) by {
      RunSplit(read, upTo, untilTurn);
    }
    var steps := upTo + untilTurn;
    assert steps[..|upTo|] == upTo;
    RunIsLater(read, steps, |upTo|);
    assert Next(t, publish).chain[i] == Publication(g, Keep, Some(OwnedBy(s.store.value, provider)), false, Queued);
  }

  /**
    A restore leaves the models as what the store holds of its provider exactly when,
    between its reading the store and its turn, no store operation took effect, or the last
    one wrote the same models of that provider that the restore had read.
  */
  lemma RestoreAgreesExactly(s: State, provider: string, g: nat, untilPublished: seq<Step>, untilTurn: seq<Step>, i: nat, last: State)
    requires IsRestore(s, provider, g, untilPublished, untilTurn, i, last)
    ensures var after := Next(last, Start(i));
            var written := LastWritten(Next(s, Read(g)), RestoreSteps(s, provider, g, untilPublished, untilTurn));
            && after.chain[i].progress == Settled(true) && after.dynamic == OwnedBy(s.store.value, provider)
            && (AgreesFor(after, provider) <==>
                  written.None?
                  || (written.value.Some? && OwnedBy(written.value.value, provider) == OwnedBy(s.store.value, provider)))
  {
    RestorePublishes(s, provider, g, untilPublished, untilTurn, i, last);
    StoreAfter(Next(s, Read(g)), RestoreSteps(s, provider, g, untilPublished, untilTurn));
  }

  /** Nothing is written between the reading and the turn of a restore that starts undisturbed. */
  lemma NothingWritten(store: Option<Models>, dynamic: Models, before: seq<Step>, s: State, provider: string, g: nat,
                       untilPublished: seq<Step>, untilTurn: seq<Step>, i: nat, last: State)
    requires Run(Init(store, dynamic), before) == Some(s)
    requires IsRestore(s, provider, g, untilPublished, untilTurn, i, last)
    requires NoneWriting(s) && NothingToPersist(s, last.chain, i, g)
    ensures LastWritten(Next(s, Read(g)), RestoreSteps(s, provider, g, untilPublished, untilTurn)).None?
  {
    var steps := RestoreSteps(s, provider, g, untilPublished, untilTurn);
    var read := Next(s, Read(g));
    RestorePublishes(s, provider, g, untilPublished, untilTurn, i, last);
    var all := before + [Read(g)];
    assert all[..|all|-1] == before;
    RunSplit(Init(store, dynamic), all, steps);
    RunKeepsInv(store, dynamic, all + steps);
    NoWriteHappens(read, steps, |steps|, i, g);
    assert steps[..|steps|] == steps;
  }

  /**
    So a restore agrees with the store whenever no store operation was under way when it
    read the store, and its own generation had nothing queued to persist in front of it.
  */
  lemma RestoreAgrees(store: Option<Models>, dynamic: Models, before: seq<Step>, s: State, provider: string, g: nat,
                      untilPublished: seq<Step>, untilTurn: seq<Step>, i: nat, last: State)
    requires Run(Init(store, dynamic), before) == Some(s)
    requires IsRestore(s, provider, g, untilPublished, untilTurn, i, last)
    requires NoneWriting(s) && NothingToPersist(s, last.chain, i, g)
    ensures var after := Next(last, Start(i));
            after.chain[i].progress == Settled(true) && after.store == s.store && AgreesFor(after, provider)
  {
    NothingWritten(store, dynamic, before, s, provider, g, untilPublished, untilTurn, i, last);
    RestorePublishes(s, provider, g, untilPublished, untilTurn, i, last);
    StoreAfter(Next(s, Read(g)), RestoreSteps(s, provider, g, untilPublished, untilTurn));
  }

  // ----- What a body does -----

  /** The positions from k on of the models of a provider, in order. */
  ghost predicate AreOwn(models: Models, provider: string, k: nat, kept: seq<nat>) {
    && (forall i :: 0 <= i < |kept| ==> k <= kept[i] < |models|)
    && (forall i, j :: 0 <= i < j < |kept| ==> kept[i] < kept[j])
    && forall j :: k <= j < |models| ==> (j in kept <==> models[j].provider == provider)
  }

  ghost predicate ArePicked(own: Models, models: Models, kept: seq<nat>) {
    |own| == |kept| && forall i :: 0 <= i < |kept| ==> kept[i] < |models| && own[i] == models[kept[i]]
  }

  lemma PickFirst(own: Models, models: Models, k: nat, kept: seq<nat>)
    requires k < |models| && ArePicked(own, models, kept)
    ensures ArePicked([models[k]] + own, models, [k] + kept) && forall j :: j in [k] + kept <==> j == k || j in kept
  {
  }

  lemma OwnedStep(models: Models, provider: string, k: nat)
    requires k < |models|
    ensures var rest := OwnedBy(models[k + 1..], provider);
            OwnedBy(models[k..], provider) == if models[k].provider == provider then [models[k]] + rest else rest
  {
    assert models[k..][1..] == models[k + 1..];
  }

  /** The models of the provider stay, in their order. */
  lemma {:induction false} OwnedExactly(models: Models, provider: string, k: nat) returns (kept: seq<nat>)
    requires k <= |models|
    ensures AreOwn(models, provider, k, kept) && ArePicked(OwnedBy(models[k..], provider), models, kept)
    decreases |models| - k
  {
    if k == |models| {
      kept := [];
    } else {
      var later := OwnedExactly(models, provider, k + 1);
      OwnedStep(models, provider, k);
      PickFirst(OwnedBy(models[k + 1..], provider), models, k, later);
      if models[k].provider == provider {
        kept := [k] + later;
      } else {
        kept := later;
      }
    }
  }

  /** Everything but publication i stays as it is, and so does what publication i is to do. */
  ghost predicate OnlyProgress(s: State, t: State, i: nat) {
    && i < |s.chain| == |t.chain| && t.generation == s.generation && t.stored == s.stored
    && (forall j :: 0 <= j < |s.chain| && j != i ==> t.chain[j] == s.chain[j])
    && t.chain[i].(progress := s.chain[i].progress) == s.chain[i]
  }

  /**
    A body checks that it was not aborted and that no later refresh has begun: before its store
    operation, and again before it installs its models. Where a check fails, and where the store
    operation fails, it settles false and installs nothing.
  */
  lemma BodyExactly(s: State, step: Step, i: nat)
    requires Enabled(s, step) && (step == Start(i) || step == Recheck(i) || step == Finish(i, true) || step == Finish(i, false) || step == Effect(i))
    ensures var t, p := Next(s, step), s.chain[i];
            var refused := p.aborted || p.generation != s.generation;
            var ends := step.Recheck? || (step.Start? && p.persist.Keep?);
            && OnlyProgress(s, t, i)
            && (t.store != s.store ==> step.Effect?)
            && (step.Effect? ==> t.store == if p.persist.Write? then Some(p.persist.models) else None)
            && (t.dynamic != s.dynamic ==> ends && !refused && p.update == Some(t.dynamic))
            && ((step.Start? || step.Recheck?) && refused ==> t.chain[i].progress == Settled(false) && t.trace == s.trace)
            && (ends && !refused ==> t.chain[i].progress == Settled(true) && (p.update.Some? ==> t.dynamic == p.update.value))
            && (step.Start? && !p.persist.Keep? && !refused ==> t.chain[i].progress == Writing(false))
            && (step == Finish(i, true) ==> t.chain[i].progress == Written)
            && (step == Finish(i, false) ==> t.chain[i].progress == Settled(false))
  {
  }

  /** Whatever has not settled can go on: the first such publication has a step to take. */
  lemma NeverStuck(s: State, i: nat) returns (step: Step)
    requires i < |s.chain| && !s.chain[i].progress.Settled? && forall j :: 0 <= j < i ==> s.chain[j].progress.Settled?
    ensures Enabled(s, step) && (step == Start(i) || step == Effect(i) || step == Finish(i, true) || step == Recheck(i))
    ensures Stage(Next(s, step).chain[i].progress) < Stage(s.chain[i].progress)
  {
    match s.chain[i].progress
    case Queued => step := Start(i);
    case Writing(effected) => step := if effected then Finish(i, true) else Effect(i);
    case Written => step := Recheck(i);
    case Settled(_) => assert false;
  }

  function Stage(progress: Progress): nat {
    match progress
    case Queued => 4
    case Writing(effected) => if effected then 2 else 3
    case Written => 1
    case Settled(_) => 0
  }

  function Work(chain: seq<Publication>): nat {
    if chain == [] then 0 else Work(chain[..|chain| - 1]) + Stage(chain[|chain| - 1].progress)
  }

  lemma {:induction false} LessWork(chain: seq<Publication>, i: nat, p: Publication)
    requires i < |chain| && Stage(p.progress) < Stage(chain[i].progress)
    ensures Work(chain[i := p]) < Work(chain)
  {
    var last := |chain| - 1;
    if i < last {
      assert chain[i := p][..last] == chain[..last][i := p];
      LessWork(chain[..last], i, p);
    } else {
      assert chain[i := p][..last] == chain[..last];
    }
  }

  lemma {:induction false} NoWorkSettled(chain: seq<Publication>)
    ensures Work(chain) == 0 ==> forall j :: 0 <= j < |chain| ==> chain[j].progress.Settled?
    ensures Work(chain) > 0 ==> exists i :: 0 <= i < |chain| && !chain[i].progress.Settled? && forall j :: 0 <= j < i ==> chain[j].progress.Settled?
  {
    if chain != [] {
      var last := |chain| - 1;
      NoWorkSettled(chain[..last]);
      if Work(chain[..last]) > 0 {
        var i :| 0 <= i < last && !chain[..last][i].progress.Settled? && forall j :: 0 <= j < i ==> chain[..last][j].progress.Settled?;
        assert forall j :: 0 <= j < i ==> chain[j] == chain[..last][j];
      } else {
        assert forall j :: 0 <= j < last ==> chain[j] == chain[..last][j];
      }
    }
  }

  /** From every state all publications can settle, whether or not their callers still wait. */
  lemma {:induction false} AllCanSettle(s: State) returns (steps: seq<Step>)
    ensures Run(s, steps).Some? && |Run(s, steps).value.chain| == |s.chain|
    ensures forall j :: 0 <= j < |s.chain| ==> Run(s, steps).value.chain[j].progress.Settled?
    decreases Work(s.chain)
  {
    NoWorkSettled(s.chain);
    if Work(s.chain) == 0 {
      steps := [];
    } else {
      var i :| 0 <= i < |s.chain| && !s.chain[i].progress.Settled? && forall j :: 0 <= j < i ==> s.chain[j].progress.Settled?;
      var step := NeverStuck(s, i);
      var t := Next(s, step);
      BodyExactly(s, step, i);
      LessWork(s.chain, i, t.chain[i]);
      assert t.chain == s.chain[i := t.chain[i]];
      var rest := AllCanSettle(t);
      steps := [step] + rest;
      assert [step][..0] == [] && Run(s, [step]) == Some(t);
      RunSplit(s, [step], rest);
    }
  }

  /** Aborted, or overtaken by a later refresh. */
  ghost predicate GivenUp(s: State, i: nat) {
    i < |s.chain| && (s.chain[i].aborted || s.chain[i].generation < s.generation)
  }

  lemma GivenUpStep(s: State, step: Step, i: nat)
    requires GivenUp(s, i) && Enabled(s, step)
    ensures GivenUp(Next(s, step), i)
    ensures !s.chain[i].progress.Settled? ==> Next(s, step).chain[i].progress != Settled(true)
    ensures s.chain[i].progress == Settled(false) ==> Next(s, step).chain[i].progress == Settled(false)
    ensures s.chain[i].progress.Queued? ==> Next(s, step).chain[i].progress.Queued? || Next(s, step).chain[i].progress == Settled(false)
  {
  }

  /**
    A publication that was aborted or overtaken before it settled never publishes; and if its
    body had not started by then, it does not touch the store either.
  */
  lemma {:induction false} GivenUpNeverPublishes(s: State, steps: seq<Step>, i: nat)
    requires GivenUp(s, i) && Run(s, steps).Some? && (!s.chain[i].progress.Settled? || s.chain[i].progress == Settled(false))
    ensures var t := Run(s, steps).value;
            && GivenUp(t, i) && t.chain[i].progress != Settled(true)
            && (s.chain[i].progress.Queued? || s.chain[i].progress == Settled(false) ==>
                  t.chain[i].progress.Queued? || t.chain[i].progress == Settled(false))
  {
    if steps != [] {
      GivenUpNeverPublishes(s, steps[..|steps| - 1], i);
      GivenUpStep(Run(s, steps[..|steps| - 1]).value, steps[|steps| - 1], i);
    }
  }
}
