/**
 * `useGoogleMaps`: the status of the maps script, the `data-gmaps` script
 * tag it creates or reuses, and the load/error listeners it attaches.
 */
module MapsLoader {

  datatype Status = Idle | Loading | Ready | Error | NoKey

  /**
   * What the loader and its environment look like: the status, how many
   * `data-gmaps` scripts the document holds, whether the hook's load and
   * error listeners are attached (each is a separate once-listener), whether
   * the script has already fired its one load or error event, and whether
   * `window.google.maps` exists.
   */
  datatype LoaderState = LoaderState(status: Status, scripts: nat, loadListening: bool, errorListening: bool,
                                     fired: bool, mapsPresent: bool)

  /** What reaches the loader: a run of the effect, its cleanup, or an event of the script. */
  datatype Input = Mount(keyPresent: bool) | Cleanup | ScriptLoaded | ScriptFailed

  /** The effect's decision from the key, the maps library and the script tag. */
  datatype MountDecision = MountDecision(status: Status, createScript: bool, listen: bool)

  /**
   * One run of the effect. No key: no-key. Library present: ready. Otherwise
   * the status is loading and listeners are attached, to a new script when
   * there is none and to the existing one otherwise. (The source checks the
   * library a second time on the existing-script path; within one run it
   * cannot have appeared, so that check always fails and is not repeated here.)
   */
  function Decide(keyPresent: bool, mapsPresent: bool, scriptPresent: bool): (d: MountDecision)
    ensures d.status == NoKey <==> !keyPresent
    ensures d.status == Ready <==> keyPresent && mapsPresent
    ensures d.status == Loading <==> keyPresent && !mapsPresent
    ensures d.createScript <==> keyPresent && !mapsPresent && !scriptPresent
    ensures d.listen <==> d.status == Loading
  {
    if !keyPresent then MountDecision(NoKey, false, false)
    else if mapsPresent then MountDecision(Ready, false, false)
    else if !scriptPresent then MountDecision(Loading, true, true)
    else MountDecision(Loading, false, true)
  }

  /**
   * A script element fires exactly one of its load and error events, once:
   * an event with no script, or after the script has fired, does not occur.
   */
  predicate CanFire(s: LoaderState) {
    s.scripts > 0 && !s.fired
  }

  /** The loader after one input. */
  function Step(s: LoaderState, input: Input): LoaderState {
    match input
    case Mount(keyPresent) =>
      var d := Decide(keyPresent, s.mapsPresent, s.scripts > 0);
      s.(status := d.status, scripts := if d.createScript then s.scripts + 1 else s.scripts,
         loadListening := d.listen, errorListening := d.listen)
    case Cleanup =>
      s.(loadListening := false, errorListening := false)
    case ScriptLoaded =>
      if !CanFire(s) then s
      else
        // the script defines `google.maps`; the hook hears it only through its load listener,
        // which `once` removes; the error listener stays attached
        s.(status := if s.loadListening then Ready else s.status, loadListening := false,
           fired := true, mapsPresent := true)
    case ScriptFailed =>
      if !CanFire(s) then s
      else s.(status := if s.errorListening then Error else s.status, errorListening := false, fired := true)
  }

  /** The loader after a sequence of inputs. */
  function Run(s: LoaderState, inputs: seq<Input>): LoaderState
    decreases |inputs|
  {
    if inputs == [] then s else Run(Step(s, inputs[0]), inputs[1..])
  }

  /**
   * The state before an instance's first run of the effect. Each map on the
   * page mounts its own instance against the shared script tag, so a later
   * instance can find a script that has already fired.
   */
  function Initial(scripts: nat, mapsPresent: bool, fired: bool): (s: LoaderState)
    requires fired ==> scripts > 0
    ensures s.status == Idle && !s.loadListening && !s.errorListening
    ensures s.scripts == scripts && s.fired == fired && s.mapsPresent == mapsPresent
  {
    LoaderState(Idle, scripts, false, false, fired, mapsPresent)
  }

  /**
   * Listeners are attached only to an existing script; until the script
   * fires, both are attached or neither, and attached ones mean loading; an
   * error status only ever comes from the script's error event.
   */
  ghost predicate Consistent(s: LoaderState) {
    && ((s.loadListening || s.errorListening) ==> s.scripts > 0)
    && (!s.fired ==> (s.loadListening <==> s.errorListening))
    && (!s.fired && s.loadListening ==> s.status == Loading)
    && (s.status == Error ==> s.fired)
  }

  /** Every instance starts consistent. */
  lemma InitialConsistent(scripts: nat, mapsPresent: bool, fired: bool)
    requires fired ==> scripts > 0
    ensures Consistent(Initial(scripts, mapsPresent, fired))
  {
  }

  lemma StepConsistent(s: LoaderState, input: Input)
    requires Consistent(s)
    ensures Consistent(Step(s, input))
  {
  }

  /** No sequence of inputs creates a second script tag. */
  lemma {:induction false} AtMostOneScriptCreated(s: LoaderState, inputs: seq<Input>)
    ensures Run(s, inputs).scripts <= if s.scripts == 0 then 1 else s.scripts
    decreases |inputs|
  {
    if inputs != [] {
      var t := Step(s, inputs[0]);
      assert t.scripts <= if s.scripts == 0 then 1 else s.scripts;
      assert s.scripts > 0 ==> t.scripts == s.scripts;
      AtMostOneScriptCreated(t, inputs[1..]);
    }
  }

  /** Consistency holds after any sequence of inputs. */
  lemma {:induction false} RunConsistent(s: LoaderState, inputs: seq<Input>)
    requires Consistent(s)
    ensures Consistent(Run(s, inputs))
    decreases |inputs|
  {
    if inputs != [] {
      StepConsistent(s, inputs[0]);
      RunConsistent(Step(s, inputs[0]), inputs[1..]);
    }
  }

  /**
   * While loading with both listeners attached, a load event gives ready and
   * an error event gives error; `once` removes only the listener that fired.
   */
  lemma LoadingOutcomes(s: LoaderState)
    requires s.status == Loading && s.loadListening && s.errorListening && CanFire(s)
    ensures var t := Step(s, ScriptLoaded);
            t.status == Ready && !t.loadListening && t.errorListening && t.mapsPresent
    ensures var t := Step(s, ScriptFailed);
            t.status == Error && t.loadListening && !t.errorListening
  {
  }

  /** After one of its events the script fires nothing more: the other event changes nothing. */
  lemma {:induction false} OneEventPerScript(s: LoaderState, first: Input, events: seq<Input>)
    requires first == ScriptLoaded || first == ScriptFailed
    requires CanFire(s)
    requires forall i :: 0 <= i < |events| ==> events[i] == ScriptLoaded || events[i] == ScriptFailed
    ensures Run(Step(s, first), events) == Step(s, first)
    decreases |events|
  {
    if events != [] {
      var t := Step(s, first);
      assert Step(t, events[0]) == t;
      OneEventPerScript(s, first, events[1..]);
    }
  }

  /** A load then an error on a fresh script: the error never fires, so the page stays ready. */
  lemma LoadThenErrorStaysReady()
    ensures Run(Initial(0, false, false), [Mount(true), ScriptLoaded, ScriptFailed]).status == Ready
  {
    var s1 := Step(Initial(0, false, false), Mount(true));
    var s2 := Step(s1, ScriptLoaded);
    assert s2.status == Ready && s2.fired;
    assert [Mount(true), ScriptLoaded, ScriptFailed][1..] == [ScriptLoaded, ScriptFailed];
    assert [ScriptLoaded, ScriptFailed][1..] == [ScriptFailed];
  }

  /** Once the script has fired, loading can only be left by another run of the effect. */
  lemma {:induction false} LoadingAfterFiredStays(s: LoaderState, events: seq<Input>)
    requires s.status == Loading && s.fired
    requires forall i :: 0 <= i < |events| ==> !events[i].Mount?
    ensures Run(s, events).status == Loading
    decreases |events|
  {
    if events != [] {
      assert Step(s, events[0]).status == Loading && Step(s, events[0]).fired;
      LoadingAfterFiredStays(Step(s, events[0]), events[1..]);
    }
  }

  /**
   * A second instance that mounts, with a key, after the shared script failed
   * finds the script, attaches listeners that never fire, and stays loading
   * whatever script events and cleanups follow: it never reports the error.
   */
  lemma LateMountAfterFailure(scripts: nat, events: seq<Input>)
    requires scripts > 0
    requires forall i :: 0 <= i < |events| ==> !events[i].Mount?
    ensures var s := Step(Initial(scripts, false, true), Mount(true));
            s.status == Loading && s.loadListening && s.errorListening && s.scripts == scripts
    ensures Run(Step(Initial(scripts, false, true), Mount(true)), events).status == Loading
  {
    LoadingAfterFiredStays(Step(Initial(scripts, false, true), Mount(true)), events);
  }

  /** Script events alone never retry: with no run of the effect, an error stays an error. */
  lemma {:induction false} NoRetryAfterError(s: LoaderState, events: seq<Input>)
    requires s.status == Error && Consistent(s)
    requires forall i :: 0 <= i < |events| ==> !events[i].Mount?
    ensures Run(s, events).status == Error
    decreases |events|
  {
    if events != [] {
      StepConsistent(s, events[0]);
      NoRetryAfterError(Step(s, events[0]), events[1..]);
    }
  }

  /** The hook's object form: the same state, changed step by step. */
  class ScriptLoader {
    var status: Status
    var scripts: nat
    var loadListening: bool
    var errorListening: bool
    var fired: bool
    var mapsPresent: bool

    function State(): LoaderState
      reads this
    {
      LoaderState(status, scripts, loadListening, errorListening, fired, mapsPresent)
    }

    /** `useState("idle")`, in a document holding `scripts` script tags, which may have fired already. */
    constructor (scripts: nat, mapsPresent: bool, fired: bool)
      requires fired ==> scripts > 0
      ensures State() == Initial(scripts, mapsPresent, fired)
    {
      this.status := Idle;
      this.scripts := scripts;
      this.loadListening := false;
      this.errorListening := false;
      this.fired := fired;
      this.mapsPresent := mapsPresent;
    }

    /**
     * The effect body, run on mount and whenever the key or language changes;
     * React runs the previous run's cleanup first, so no listener is attached.
     */
    method Mount(keyPresent: bool)
      requires !loadListening && !errorListening
      modifies this
      ensures State() == Step(old(State()), Input.Mount(keyPresent))
    {
      if !keyPresent {
        status := NoKey;
        return;
      }
      if mapsPresent {
        status := Ready;
        return;
      }
      if scripts == 0 {
        scripts := scripts + 1;
        loadListening, errorListening := true, true;
        status := Loading;
      } else {
        status := Loading;
        loadListening, errorListening := true, true;
      }
    }

    /** The effect's cleanup: both listeners removed. */
    method Cleanup()
      modifies this
      ensures State() == Step(old(State()), Input.Cleanup)
    {
      loadListening, errorListening := false, false;
    }

    /** The script's load event, when the script can still fire. */
    method ScriptLoaded()
      modifies this
      ensures State() == Step(old(State()), Input.ScriptLoaded)
    {
      if scripts == 0 || fired {
        return;
      }
      if loadListening {
        status := Ready;
      }
      loadListening := false;
      fired := true;
      mapsPresent := true;
    }

    /** The script's error event, when the script can still fire. */
    method ScriptFailed()
      modifies this
      ensures State() == Step(old(State()), Input.ScriptFailed)
    {
      if scripts == 0 || fired {
        return;
      }
      if errorListening {
        status := Error;
      }
      errorListening := false;
      fired := true;
    }
  }
}
