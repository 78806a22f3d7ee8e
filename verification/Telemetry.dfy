/**
 * Ownership of the process-wide telemetry providers. The global registry is one-shot, and
 * other parties may register between any two steps of this module, whose own operations are
 * serialized by a lock. Nondeterministic choices stand for those parties and for
 * constructions that fail, which are counted.
 */
module Telemetry {
  import opened Prelude

  /** A provider built by this module, numbered in order, or by somebody else. */
  datatype Provider = Ours(n: nat) | External(n: nat)

  datatype Outcome =
    | AlreadyConfigured
    | Configured
    | ReconfigurationError
    | ExternalProviderError(tracer: bool, meter: bool)
    | ConstructionError

  datatype Call = Configure(adopt: bool) | Shutdown

  datatype Event = ConfigureCall(adopt: bool, outcome: Outcome) | ShutdownCall(stoppedOwned: bool)

  class Module {
    // Whether the registry lets it be told that a global is still unset.
    const tellsTracer: bool
    const tellsMeter: bool
    // The process-wide registry.
    var tracerGlobal: Option<Provider>
    var meterGlobal: Option<Provider>
    // The module's variables.
    var configured: bool
    var shutdown: bool
    var tracerOwned: Option<Provider>
    var meterOwned: Option<Provider>
    var adopted: bool
    // How many providers the module has built, and which providers it has shut down.
    var built: nat
    ghost var stopped: set<Provider>
    // How many constructions have failed.
    ghost var failures: nat

    constructor (tellsTracer: bool, tellsMeter: bool)
      ensures Valid() && !configured && !shutdown && built == 0 && stopped == {}
      ensures this.tellsTracer == tellsTracer && this.tellsMeter == tellsMeter
    {
      this.tellsTracer, this.tellsMeter := tellsTracer, tellsMeter;
      tracerGlobal, meterGlobal, tracerOwned, meterOwned := None, None, None, None;
      configured, shutdown, adopted, built := false, false, false, 0;
      stopped, failures := {}, 0;
    }

    ghost predicate IsOwned(p: Provider)
      reads this
    {
      (tracerOwned == Some(p) && tracerGlobal == Some(p)) || (meterOwned == Some(p) && meterGlobal == Some(p))
    }

    /** Only providers built here are ever shut down. */
    ghost predicate StopsOnlyItsOwn()
      reads this
    {
      forall p <- stopped :: p.Ours? && p.n < built
    }

    /** An owned provider is live, was built here and is the registered global. */
    ghost predicate OwnsLiveGlobals()
      reads this
    {
      && (tracerOwned.Some? ==> tracerOwned.value.Ours? && tracerOwned.value.n < built
                                && tracerOwned.value !in stopped && tracerGlobal == tracerOwned)
      && (meterOwned.Some? ==> meterOwned.value.Ours? && meterOwned.value.n < built
                               && meterOwned.value !in stopped && meterGlobal == meterOwned)
    }

    /** A global built here is owned, unless the module has been shut down since. */
    ghost predicate OwnGlobalsAreRecorded()
      reads this
    {
      && (tracerGlobal.Some? && tracerGlobal.value.Ours? ==> tracerOwned == tracerGlobal || shutdown)
      && (meterGlobal.Some? && meterGlobal.value.Ours? ==> meterOwned == meterGlobal || shutdown)
    }

    /** Everything built is shut down or owned, but for providers not registered yet. */
    ghost predicate NothingLeaks(pending: set<Provider>)
      reads this
    {
      && (forall n: nat :: n < built ==> Ours(n) in stopped || IsOwned(Ours(n)) || Ours(n) in pending)
      && (forall p <- pending :: p.Ours? && p.n < built && p !in stopped
                                 && tracerGlobal != Some(p) && meterGlobal != Some(p))
      && (tracerGlobal.Some? && tracerGlobal.value.Ours? ==> tracerGlobal.value.n < built)
      && (meterGlobal.Some? && meterGlobal.value.Ours? ==> meterGlobal.value.n < built)
    }

    ghost predicate Sound(pending: set<Provider>)
      reads this
    {
      StopsOnlyItsOwn() && OwnsLiveGlobals() && OwnGlobalsAreRecorded() && NothingLeaks(pending)
    }

    ghost predicate StatusIsHonest()
      reads this
    {
      && (configured ==> !shutdown && tracerGlobal.Some? && meterGlobal.Some?)
      && (shutdown ==> tracerOwned.None? && meterOwned.None?)
      && (adopted <==> configured && (tracerOwned.None? || meterOwned.None?))
    }

    /** The invariant whenever the lock is free. */
    ghost predicate Valid()
      reads this
    {
      Sound({}) && StatusIsHonest()
    }

    /** Reported to callers: true exactly when configured with some global not owned here. */
    predicate UsesAdoptedProviders()
      requires Valid()
      reads this
      ensures UsesAdoptedProviders() <==> configured && (tracerOwned.None? || meterOwned.None?)
    {
      adopted
    }

    // ----- other parties -----

    /** `global` is as before, or was filled by another party, or now holds `p`. */
    static ghost predicate Filled(before: Option<Provider>, global: Option<Provider>, p: Option<Provider>) {
      global == before || (before.None? && global.Some? && (global.value.External? || global == p))
    }

    /** What other parties may do at any moment: fill an unset global, once. */
    method Interfere()
      modifies this`tracerGlobal, this`meterGlobal
      ensures Filled(old(tracerGlobal), tracerGlobal, None) && Filled(old(meterGlobal), meterGlobal, None)
    {
      if * {
        var n: nat := *;
        tracerGlobal := if tracerGlobal.None? then Some(External(n)) else tracerGlobal;
      }
      if * {
        var n: nat := *;
        meterGlobal := if meterGlobal.None? then Some(External(n)) else meterGlobal;
      }
    }

    /** The construction of a provider succeeds, or fails and is counted as a failure. */
    method Construct() returns (ok: bool)
      modifies this`built, this`failures
      ensures built == old(built) + (if ok then 1 else 0) && failures == old(failures) + (if ok then 0 else 1)
    {
      ok := *;
      if ok {
        built := built + 1;
      } else {
        failures := failures + 1;
      }
    }

    static ghost predicate IsExternal(global: Option<Provider>) {
      global.Some? && global.value.External?
    }

    /** Interference cannot disturb what is owned or still pending. */
    method Yield(ghost pending: set<Provider>)
      requires Sound(pending)
      modifies this`tracerGlobal, this`meterGlobal
      ensures Sound(pending)
      ensures Filled(old(tracerGlobal), tracerGlobal, None) && Filled(old(meterGlobal), meterGlobal, None)
    {
      Interfere();
    }

    // ----- steps of a configuration -----

    /** Best effort: "not external" also means that it could not be told. */
    method ExternalGlobals() returns (tracer: bool, meter: bool)
      requires Sound({})
      modifies this`tracerGlobal, this`meterGlobal
      ensures Sound({})
      ensures Filled(old(tracerGlobal), tracerGlobal, None) && Filled(old(meterGlobal), meterGlobal, None)
      ensures (tracer ==> tracerGlobal.Some?) && (meter ==> meterGlobal.Some?)
      ensures old(tracerGlobal).Some? ==> (tracer <==> tellsTracer)
      ensures old(meterGlobal).Some? ==> (meter <==> tellsMeter)
    {
      Yield({});
      tracer := tellsTracer && tracerGlobal.Some?;
      Yield({});
      meter := tellsMeter && meterGlobal.Some?;
      Yield({});
    }

    /** Constructs one provider, or fails. */
    method BuildProvider(ghost pending: set<Provider>) returns (p: Option<Provider>)
      requires Sound(pending)
      modifies this`tracerGlobal, this`meterGlobal, this`built, this`failures
      ensures failures == old(failures) + if p.None? then 1 else 0
      ensures Filled(old(tracerGlobal), tracerGlobal, None) && Filled(old(meterGlobal), meterGlobal, None)
      ensures p.Some? ==> p == Some(Ours(old(built))) && built == old(built) + 1 && Sound(pending + {p.value})
      ensures p.None? ==> built == old(built) && Sound(pending)
    {
      Yield(pending);
      var ok := Construct();
      p := if ok then Some(Ours(built - 1)) else None;
    }

    method Discard(p: Provider, ghost pending: set<Provider>)
      requires Sound(pending) && p in pending
      modifies this`stopped
      ensures Sound(pending - {p}) && stopped == old(stopped) + {p}
    {
      stopped := stopped + {p};
    }

    /** Builds what is neither external nor owned yet; a failure disposes of what was built. */
    method BuildProviders(buildTracer: bool, buildMeter: bool)
      returns (tracer: Option<Provider>, meter: Option<Provider>, failed: bool)
      requires Sound({})
      modifies this`tracerGlobal, this`meterGlobal, this`built, this`failures, this`stopped
      ensures Filled(old(tracerGlobal), tracerGlobal, None) && Filled(old(meterGlobal), meterGlobal, None)
      ensures built >= old(built) && forall q <- stopped - old(stopped) :: q.Ours? && old(built) <= q.n
      ensures failures == old(failures) + if failed then 1 else 0
      ensures failed ==> tracer.None? && meter.None?
      ensures !failed ==> (tracer.Some? <==> buildTracer) && (meter.Some? <==> buildMeter)
      ensures tracer.Some? ==> tracer.value.Ours? && tracer.value.n >= old(built)
      ensures meter.Some? ==> meter.value.Ours? && meter.value.n >= old(built) && meter != tracer
      ensures Sound(OneOf(tracer) + OneOf(meter))
    {
      tracer, meter, failed := None, None, false;
      if buildTracer {
        tracer := BuildProvider({});
        if tracer.None? {
          failed := true;
          return;
        }
      }
      if buildMeter {
        meter := BuildProvider(OneOf(tracer));
        if meter.None? {
          if tracer.Some? {
            Discard(tracer.value, OneOf(tracer));
          }
          tracer, failed := None, true;
          return;
        }
      }
    }

    static ghost function OneOf(p: Option<Provider>): set<Provider> {
      if p.Some? then {p.value} else {}
    }

    /** The API keeps a provider that is already registered and reports nothing. */
    method SetTracerProvider(p: Provider)
      modifies this`tracerGlobal, this`meterGlobal
      ensures tracerGlobal.Some?
      ensures Filled(old(tracerGlobal), tracerGlobal, Some(p)) && Filled(old(meterGlobal), meterGlobal, None)
    {
      Interfere();
      if tracerGlobal.None? {
        tracerGlobal := Some(p);
      }
      Interfere();
    }

    method SetMeterProvider(p: Provider)
      modifies this`tracerGlobal, this`meterGlobal
      ensures meterGlobal.Some?
      ensures Filled(old(meterGlobal), meterGlobal, Some(p)) && Filled(old(tracerGlobal), tracerGlobal, None)
    {
      Interfere();
      if meterGlobal.None? {
        meterGlobal := Some(p);
      }
      Interfere();
    }

    /** Ownership is recorded before the API call and withdrawn only if the race was lost. */
    method RegisterTracer(p: Provider, ghost pending: set<Provider>)
      requires Sound(pending) && p in pending && tracerOwned.None?
      modifies this`tracerGlobal, this`meterGlobal, this`tracerOwned, this`stopped
      ensures Sound(pending - {p})
      ensures tracerGlobal.Some? && (tracerOwned.None? || tracerOwned == Some(p))
      ensures Filled(old(tracerGlobal), tracerGlobal, Some(p)) && Filled(old(meterGlobal), meterGlobal, None)
      ensures stopped == if tracerOwned.None? then old(stopped) + {p} else old(stopped)
    {
      tracerOwned := Some(p);
      SetTracerProvider(p);
      if tracerGlobal == Some(p) {
        return;
      }
      tracerOwned := None;
      Yield(pending);
      Discard(p, pending);
    }

    method RegisterMeter(p: Provider, ghost pending: set<Provider>)
      requires Sound(pending) && p in pending && meterOwned.None?
      modifies this`tracerGlobal, this`meterGlobal, this`meterOwned, this`stopped
      ensures Sound(pending - {p})
      ensures meterGlobal.Some? && (meterOwned.None? || meterOwned == Some(p))
      ensures Filled(old(meterGlobal), meterGlobal, Some(p)) && Filled(old(tracerGlobal), tracerGlobal, None)
      ensures stopped == if meterOwned.None? then old(stopped) + {p} else old(stopped)
    {
      meterOwned := Some(p);
      SetMeterProvider(p);
      if meterGlobal == Some(p) {
        return;
      }
      meterOwned := None;
      Yield(pending);
      Discard(p, pending);
    }

    /** Registers what was built. */
    method Register(tracer: Option<Provider>, meter: Option<Provider>)
      requires Sound(OneOf(tracer) + OneOf(meter)) && (tracer.Some? ==> tracer != meter)
      requires (tracer.Some? ==> tracerOwned.None?) && (meter.Some? ==> meterOwned.None?)
      modifies this`tracerGlobal, this`meterGlobal, this`tracerOwned, this`meterOwned, this`stopped
      ensures Sound({})
      ensures if tracer.None? then tracerOwned == old(tracerOwned)
              else tracerGlobal.Some? && (tracerOwned.None? || tracerOwned == tracer)
      ensures if meter.None? then meterOwned == old(meterOwned)
              else meterGlobal.Some? && (meterOwned.None? || meterOwned == meter)
      ensures Filled(old(tracerGlobal), tracerGlobal, tracer) && Filled(old(meterGlobal), meterGlobal, meter)
      ensures stopped <= old(stopped) + OneOf(tracer) + OneOf(meter)
    {
      assert tracer.None? ==> OneOf(tracer) + OneOf(meter) == OneOf(meter);
      if tracer.Some? {
        RegisterTracer(tracer.value, OneOf(tracer) + OneOf(meter));
        assert OneOf(tracer) + OneOf(meter) - {tracer.value} == OneOf(meter);
      }
      if meter.Some? {
        RegisterMeter(meter.value, OneOf(meter));
        assert OneOf(meter) - {meter.value} == {};
      }
    }

    /** Builds and registers what is neither external nor owned; leaves both globals set. */
    method BuildAndRegister(tracerExternal: bool, meterExternal: bool) returns (failed: bool)
      requires Sound({})
      requires (tracerExternal ==> tracerGlobal.Some?) && (meterExternal ==> meterGlobal.Some?)
      modifies this`tracerGlobal, this`meterGlobal, this`tracerOwned, this`meterOwned, this`built, this`failures, this`stopped
      ensures Sound({}) && built >= old(built)
      ensures failures == old(failures) + if failed then 1 else 0
      ensures failed ==> tracerOwned == old(tracerOwned) && meterOwned == old(meterOwned)
      ensures !failed ==> tracerGlobal.Some? && meterGlobal.Some?
      ensures old(tracerGlobal).Some? ==> tracerGlobal == old(tracerGlobal)
      ensures old(meterGlobal).Some? ==> meterGlobal == old(meterGlobal)
      ensures old(tracerOwned).Some? ==> tracerOwned == old(tracerOwned)
      ensures old(meterOwned).Some? ==> meterOwned == old(meterOwned)
      ensures forall q <- stopped - old(stopped) :: q.Ours? && old(built) <= q.n
    {
      var tracer, meter;
      tracer, meter, failed := BuildProviders(!tracerExternal && tracerOwned.None?, !meterExternal && meterOwned.None?);
      if failed {
        assert OneOf(tracer) + OneOf(meter) == {};
        return;
      }
      Register(tracer, meter);
    }

    /** Provides both globals, or says why not; what is external is told by ownership, not by the registry. */
    method AcquireGlobals(adoptExisting: bool) returns (r: Outcome)
      requires Sound({}) && !shutdown
      modifies this`tracerGlobal, this`meterGlobal, this`tracerOwned, this`meterOwned, this`built, this`failures, this`stopped
      ensures Sound({}) && built >= old(built)
      ensures r == Configured || r == ConstructionError || r.ExternalProviderError?
      ensures failures == old(failures) + if r == ConstructionError then 1 else 0
      ensures failures == old(failures) && adoptExisting ==> r == Configured
      ensures failures == old(failures) && !adoptExisting ==>
                (r == Configured <==> !IsExternal(tracerGlobal) && !IsExternal(meterGlobal))
      // A global found external at first fails the call before anything is built.
      ensures !adoptExisting && old(tracerOwned).None? && old(tracerGlobal).Some? && tellsTracer ==>
                r.ExternalProviderError? && r.tracer && built == old(built)
      ensures !adoptExisting && old(meterOwned).None? && old(meterGlobal).Some? && tellsMeter ==>
                r.ExternalProviderError? && r.meter && built == old(built)
      ensures r.ExternalProviderError? && built > old(built) ==>
                (r.tracer <==> tracerOwned.None?) && (r.meter <==> meterOwned.None?)
      ensures r == Configured ==>
                tracerGlobal.Some? && meterGlobal.Some? && (adoptExisting || (tracerOwned.Some? && meterOwned.Some?))
      ensures r.ExternalProviderError? ==>
                && !adoptExisting && (r.tracer || r.meter)
                && (r.tracer ==> tracerOwned.None? && tracerGlobal.Some? && tracerGlobal.value.External?)
                && (r.meter ==> meterOwned.None? && meterGlobal.Some? && meterGlobal.value.External?)
      ensures old(tracerGlobal).Some? ==> tracerGlobal == old(tracerGlobal)
      ensures old(meterGlobal).Some? ==> meterGlobal == old(meterGlobal)
      ensures old(tracerOwned).Some? ==> tracerOwned == old(tracerOwned)
      ensures old(meterOwned).Some? ==> meterOwned == old(meterOwned)
      ensures r == ConstructionError ==> tracerOwned == old(tracerOwned) && meterOwned == old(meterOwned)
      ensures forall q <- stopped - old(stopped) :: q.Ours? && old(built) <= q.n
    {
      var tracerExternal, meterExternal := ExternalGlobals();
      tracerExternal := tracerExternal && tracerOwned.None?;
      meterExternal := meterExternal && meterOwned.None?;
      if (tracerExternal || meterExternal) && !adoptExisting {
        return ExternalProviderError(tracerExternal, meterExternal);
      }
      var failed := BuildAndRegister(tracerExternal, meterExternal);
      if failed {
        return ConstructionError;
      }
      if !adoptExisting && (tracerOwned.None? || meterOwned.None?) {
        return ExternalProviderError(tracerOwned.None?, meterOwned.None?);
      }
      return Configured;
    }

    // ----- the module's operations -----

    method ConfigureTelemetry(adoptExisting: bool) returns (r: Outcome)
      requires Valid()
      modifies this
      ensures Valid() && shutdown == old(shutdown) && built >= old(built)
      // Outcomes.
      ensures r == AlreadyConfigured <==> old(configured)
      ensures r == ReconfigurationError <==> !old(configured) && old(shutdown)
      ensures configured <==> r == AlreadyConfigured || r == Configured
      ensures failures == old(failures) + if r == ConstructionError then 1 else 0
      ensures failures == old(failures) && adoptExisting && !old(configured) && !shutdown ==> r == Configured
      ensures failures == old(failures) && !adoptExisting && !old(configured) && !shutdown ==>
                (r == Configured <==> !IsExternal(tracerGlobal) && !IsExternal(meterGlobal))
      // A global found external at first fails the call before anything is built.
      ensures !old(configured) && !shutdown && !adoptExisting && old(tracerOwned).None? && old(tracerGlobal).Some? && tellsTracer ==>
                r.ExternalProviderError? && r.tracer && built == old(built)
      ensures !old(configured) && !shutdown && !adoptExisting && old(meterOwned).None? && old(meterGlobal).Some? && tellsMeter ==>
                r.ExternalProviderError? && r.meter && built == old(built)
      ensures r.ExternalProviderError? && built > old(built) ==>
                (r.tracer <==> tracerOwned.None?) && (r.meter <==> meterOwned.None?)
      ensures r.ExternalProviderError? ==>
                && !adoptExisting && (r.tracer || r.meter)
                && (r.tracer ==> tracerOwned.None? && tracerGlobal.Some? && tracerGlobal.value.External?)
                && (r.meter ==> meterOwned.None? && meterGlobal.Some? && meterGlobal.value.External?)
      // What another party registered, and what is already owned, stays.
      ensures old(tracerGlobal).Some? ==> tracerGlobal == old(tracerGlobal)
      ensures old(meterGlobal).Some? ==> meterGlobal == old(meterGlobal)
      ensures old(tracerOwned).Some? ==> tracerOwned == old(tracerOwned)
      ensures old(meterOwned).Some? ==> meterOwned == old(meterOwned)
      ensures r == ConstructionError ==> tracerOwned == old(tracerOwned) && meterOwned == old(meterOwned)
      // Only providers built by this very call are shut down by it.
      ensures forall q <- stopped - old(stopped) :: q.Ours? && old(built) <= q.n
    {
      if configured {
        return AlreadyConfigured;
      }
      if shutdown {
        return ReconfigurationError;
      }
      r := AcquireGlobals(adoptExisting);
      if r == Configured {
        MarkConfigured();
      }
    }

    method MarkConfigured()
      requires Sound({}) && !shutdown && tracerGlobal.Some? && meterGlobal.Some?
      modifies this`configured, this`adopted
      ensures Valid() && configured
    {
      adopted := tracerOwned.None? || meterOwned.None?;
      configured := true;
    }

    method StopOwned()
      modifies this`tracerGlobal, this`meterGlobal, this`stopped
      ensures stopped == old(stopped) + OneOf(tracerOwned) + OneOf(meterOwned)
      ensures Filled(old(tracerGlobal), tracerGlobal, None) && Filled(old(meterGlobal), meterGlobal, None)
    {
      if tracerOwned.Some? {
        stopped := stopped + {tracerOwned.value};
      }
      Interfere();
      if meterOwned.Some? {
        stopped := stopped + {meterOwned.value};
      }
      Interfere();
    }

    method ShutdownTelemetry() returns (stoppedOwned: bool)
      requires Valid()
      modifies this
      ensures Valid() && !configured && tracerOwned.None? && meterOwned.None? && built == old(built)
      ensures stoppedOwned <==> old(tracerOwned).Some? || old(meterOwned).Some?
      ensures stopped == old(stopped) + OneOf(old(tracerOwned)) + OneOf(old(meterOwned))
      ensures shutdown == (old(shutdown) || stoppedOwned)
      ensures Filled(old(tracerGlobal), tracerGlobal, None) && Filled(old(meterGlobal), meterGlobal, None)
    {
      stoppedOwned := false;
      if !configured && tracerOwned.None? && meterOwned.None? {
        return;
      }
      StopOwned();
      if tracerOwned.Some? || meterOwned.Some? {
        shutdown := true;
        stoppedOwned := true;
      }
      tracerOwned, meterOwned := None, None;
      adopted, configured := false, false;
    }

    /**
     * Any history of calls, with other parties acting in between. Whenever the lock is free
     * the invariant holds; and once a provider the module owned has been shut down, every
     * later configuration fails.
     */
    method AnyHistory(calls: seq<Call>) returns (history: seq<Event>)
      requires Valid() && !shutdown
      modifies this
      ensures Valid() && Answers(calls, history)
      ensures forall i, j :: 0 <= i < j < |history| && history[i] == ShutdownCall(true) && history[j].ConfigureCall?
                ==> history[j].outcome == ReconfigurationError
    {
      history := [];
      for n := 0 to |calls|
        invariant Valid() && Answers(calls[..n], history)
        invariant (exists i :: 0 <= i < |history| && history[i] == ShutdownCall(true)) ==> shutdown
        invariant forall i, j :: 0 <= i < j < |history| && history[i] == ShutdownCall(true) && history[j].ConfigureCall?
                    ==> history[j].outcome == ReconfigurationError
      {
        Yield({});
        match calls[n] {
          case Configure(adopt) =>
            var outcome := ConfigureTelemetry(adopt);
            history := history + [ConfigureCall(adopt, outcome)];
          case Shutdown =>
            var stoppedOwned := ShutdownTelemetry();
            history := history + [ShutdownCall(stoppedOwned)];
        }
      }
    }

    /** One event for every call, in order. */
    static ghost predicate Answers(calls: seq<Call>, history: seq<Event>) {
      && |history| == |calls|
      && forall i :: 0 <= i < |calls| ==>
           match calls[i]
           case Configure(adopt) => history[i].ConfigureCall? && history[i].adopt == adopt
           case Shutdown => history[i].ShutdownCall?
    }
  }
}
