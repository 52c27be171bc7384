/**
 * The phase and mode policy of backend/main.py: the telemetry gate of
 * `on_state_update`, the REST phase/reset/mode handlers and the WebSocket
 * message branches, as methods of a coordinator that owns the checklist
 * store and the phase detector.
 */
module Coordination {
  import opened Wrappers
  import opened Flight
  import opened SimConnect
  import opened Checklists

  /** The variables `on_state_update` offers to `update_verification`, in order. */
  const VerifyVars: seq<string> := [
    "BRAKE_PARKING_POSITION",
    "LIGHT_BEACON",
    "TRAILING_EDGE_FLAPS_LEFT_PERCENT",
    "SPOILERS_ARMED",
    "TRANSPONDER_STATE",
    "GEAR_HANDLE_POSITION",
    "CABIN_SEATBELTS_ALERT_SWITCH",
    "CABIN_NO_SMOKING_ALERT_SWITCH",
    "APU_SWITCH",
    "APU_GENERATOR_SWITCH",
    "RUDDER_TRIM_PCT",
    "ENG_COMBUSTION",
    "LIGHT_NAV",
    "LIGHT_STROBE",
    "ELECTRICAL_MASTER_BATTERY"
  ]

  /**
   * The checklists after offering each name of `names`, in order, to
   * `update_verification` with its value in the snapshot; names without a
   * value are skipped.
   */
  function ApplyVerifications(checklists: map<string, Checklist>, s: FlightState, names: seq<string>)
    : map<string, Checklist>
    decreases |names|
  {
    if names == [] then checklists
    else
      var before := ApplyVerifications(checklists, s, names[..|names| - 1]);
      var name := names[|names| - 1];
      match GetVariable(s, name)
      case None => before
      case Some(value) => UpdateAll(before, Verify(name, value))
  }

  /** One more name offered. */
  lemma ApplyVerificationsStep(checklists: map<string, Checklist>, s: FlightState, names: seq<string>, i: nat)
    requires i < |names|
    ensures var before := ApplyVerifications(checklists, s, names[..i]);
      ApplyVerifications(checklists, s, names[..i + 1]) ==
        if GetVariable(s, names[i]).Some? then UpdateAll(before, Verify(names[i], GetVariable(s, names[i]).value))
        else before
  {
    assert names[..i + 1][..i] == names[..i];
  }

  /** Item `i` of checklist `k` in `after` differs from `before` at most in `verified`. */
  ghost predicate OnlyVerifiedDiffers(before: map<string, Checklist>, after: map<string, Checklist>) {
    after.Keys == before.Keys &&
    forall k :: k in before ==>
      after[k].id == before[k].id && after[k].title == before[k].title && after[k].trigger == before[k].trigger &&
      |after[k].items| == |before[k].items| &&
      forall i :: 0 <= i < |before[k].items| ==>
        after[k].items[i] == before[k].items[i].(verified := after[k].items[i].verified)
  }

  /** A telemetry update's verification pass never changes anything but `verified`. */
  lemma {:induction false} VerificationsOnlySetVerified(checklists: map<string, Checklist>, s: FlightState, names: seq<string>)
    ensures OnlyVerifiedDiffers(checklists, ApplyVerifications(checklists, s, names))
    decreases |names|
  {
    if names != [] {
      var before := ApplyVerifications(checklists, s, names[..|names| - 1]);
      VerificationsOnlySetVerified(checklists, s, names[..|names| - 1]);
      var name := names[|names| - 1];
      match GetVariable(s, name)
      case None =>
      case Some(value) =>
        VerifyOnlySetsVerified(before, name, value);
    }
  }

  /** The transponder is listed but has no value, so it never verifies anything. */
  lemma TransponderSkipped(s: FlightState)
    ensures "TRANSPONDER_STATE" in VerifyVars && GetVariable(s, "TRANSPONDER_STATE") == None
  {
    assert VerifyVars[4] == "TRANSPONDER_STATE";
  }

  /** The phase the store holds after the automatic gate sees `detected`. */
  function AdoptedPhase(current: Phase, detected: Phase): (r: Phase)
    ensures r == detected || r == current
    ensures r == detected <==> detected in ChecklistPhases || detected == current
  {
    if detected in ChecklistPhases then detected else current
  }

  /** The gate never moves the store to a phase without a checklist. */
  lemma AdoptedPhaseHasChecklist(current: Phase, detected: Phase)
    requires current in ChecklistPhases
    ensures AdoptedPhase(current, detected) in ChecklistPhases
    ensures detected in {TakeoffRoll, Climb, Cruise, Descent} ==> AdoptedPhase(current, detected) == current
  {
  }

  /** `msg_data.get("mode")` accepted by WebSocket `set_mode`; anything else keeps the mode. */
  function RequestedMode(mode: Option<string>, current: Mode): (r: Mode)
    ensures mode == Some("auto") ==> r == Auto
    ensures mode == Some("manual") ==> r == Manual
    ensures mode != Some("auto") && mode != Some("manual") ==> r == current
  {
    if mode == Some("auto") then Auto
    else if mode == Some("manual") then Manual
    else current
  }

  class Coordinator {
    const store: ChecklistManager
    const detector: PhaseDetector

    ghost predicate Valid()
      reads this, store
    {
      store.Valid()
    }

    constructor(s: ChecklistManager, d: PhaseDetector)
      requires s.Valid()
      ensures store == s && detector == d && Valid()
    {
      store := s;
      detector := d;
    }

    /** The verification half of `on_state_update`: each variable with a value is offered in turn. */
    method OfferVerifications(s: FlightState, names: seq<string>)
      modifies store`checklists
      ensures store.checklists == ApplyVerifications(old(store.checklists), s, names)
    {
      var i := 0;
      while i < |names|
        invariant 0 <= i <= |names|
        invariant store.checklists == ApplyVerifications(old(store.checklists), s, names[..i])
      {
        var name := names[i];
        var value := GetVariable(s, name);
        ApplyVerificationsStep(old(store.checklists), s, names, i);
        if value.Some? {
          store.UpdateVerification(name, value.value);
        }
        i := i + 1;
      }
      assert names[..i] == names;
    }

    /**
     * `on_state_update`: offer every verification variable with a value to
     * the store; then, in automatic mode only, detect the phase and adopt it
     * when it has a checklist. Manual mode leaves the phase, the history and
     * the detector untouched.
     */
    method OnStateUpdate(s: FlightState)
      requires Valid()
      modifies store`checklists, store`currentPhase, store`phaseHistory, detector
      ensures Valid()
      ensures store.checklists == ApplyVerifications(old(store.checklists), s, VerifyVars)
      ensures store.phaseMode == old(store.phaseMode) && store.trainingMode == old(store.trainingMode)
      ensures old(store.phaseMode) == Auto ==>
        var d := Classify(old(detector.wasAirborne), s);
        var adopted := AdoptedPhase(old(store.currentPhase), d.phase);
        (detector.wasAirborne == d.airborne && store.currentPhase == adopted &&
         store.phaseHistory == RecordVisit(old(store.phaseHistory), old(store.currentPhase), adopted, true))
      ensures old(store.phaseMode) == Manual ==>
        (detector.wasAirborne == old(detector.wasAirborne) && store.currentPhase == old(store.currentPhase) &&
         store.phaseHistory == old(store.phaseHistory))
    {
      OfferVerifications(s, VerifyVars);
      if store.phaseMode == Auto {
        var detected := detector.Detect(s);
        if detected in ChecklistPhases {
          store.SetPhase(detected, true);
        } else {
          assert RecordVisit(store.phaseHistory, store.currentPhase, store.currentPhase, true) == store.phaseHistory;
        }
      }
    }

    /** REST `set_phase`: a valid phase is set with history and the mode becomes manual. */
    method RestSetPhase(phase: string) returns (ok: bool)
      requires Valid()
      modifies store`currentPhase, store`phaseHistory, store`phaseMode
      ensures Valid()
      ensures ok <==> ParsePhase(phase).Some?
      ensures ok ==> (store.currentPhase == ParsePhase(phase).value && store.phaseMode == Manual &&
        store.phaseHistory == RecordVisit(old(store.phaseHistory), old(store.currentPhase), store.currentPhase, true))
      ensures !ok ==> (store.currentPhase == old(store.currentPhase) && store.phaseMode == old(store.phaseMode) &&
        store.phaseHistory == old(store.phaseHistory))
      ensures store.checklists == old(store.checklists)
    {
      var p := ParsePhase(phase);
      if p.None? {
        return false;
      }
      store.SetPhase(p.value, true);
      store.phaseMode := Manual;
      return true;
    }

    /** REST `reset_checklists` and WebSocket `reset`: store and detector both start over. */
    method Reset()
      requires Valid()
      modifies store`checklists, store`currentPhase, store`phaseHistory, store`phaseMode, detector
      ensures Valid()
      ensures store.checklists == UpdateAll(old(store.checklists), ResetState)
      ensures store.currentPhase == CockpitPreparation && store.phaseMode == Auto && store.phaseHistory == []
      ensures !detector.wasAirborne
    {
      store.ResetAll();
      detector.Reset();
    }

    /** REST `set_auto_mode` / `set_manual_mode`. */
    method SetMode(mode: Mode)
      requires Valid()
      modifies store`phaseMode
      ensures Valid() && store.phaseMode == mode
    {
      store.phaseMode := mode;
    }

    /** REST `next_phase`. */
    method RestNextPhase() returns (ok: bool)
      requires Valid()
      modifies store`currentPhase, store`phaseHistory, store`phaseMode
      ensures Valid()
      ensures ok <==> NextChecklistPhase(old(store.currentPhase)).Some?
      ensures ok ==> (store.currentPhase == NextChecklistPhase(old(store.currentPhase)).value &&
        store.phaseMode == Manual &&
        store.phaseHistory == RecordVisit(old(store.phaseHistory), old(store.currentPhase), store.currentPhase, true))
      ensures !ok ==> (store.currentPhase == old(store.currentPhase) && store.phaseMode == old(store.phaseMode) &&
        store.phaseHistory == old(store.phaseHistory))
      ensures store.checklists == old(store.checklists)
    {
      ok := store.NextPhase();
    }

    /** REST `prev_phase`. */
    method RestPrevPhase() returns (ok: bool)
      requires Valid()
      modifies store`currentPhase, store`phaseHistory, store`phaseMode
      ensures Valid()
      ensures ok <==> PrevChecklistPhase(old(store.currentPhase)).Some?
      ensures ok ==> (store.currentPhase == PrevChecklistPhase(old(store.currentPhase)).value &&
        store.phaseMode == Manual)
      ensures !ok ==> store.currentPhase == old(store.currentPhase) && store.phaseMode == old(store.phaseMode)
      ensures store.phaseHistory == old(store.phaseHistory) && store.checklists == old(store.checklists)
    {
      ok := store.PrevPhase();
    }

    /**
     * WebSocket `check_item`: both fields must be strings, then the item is
     * toggled.
     */
    method WsCheckItem(phase: Option<string>, itemId: Option<string>)
      requires Valid()
      modifies store`checklists
      ensures Valid()
      ensures phase.None? || itemId.None? ==> store.checklists == old(store.checklists)
      ensures phase.Some? && itemId.Some? ==>
        var marked := MarkItem(old(store.checklists), phase.value, itemId.value, Toggle);
        store.checklists == if marked.Some? then marked.value else old(store.checklists)
    {
      if phase.None? || itemId.None? {
        return;
      }
      var _ := store.ToggleItem(phase.value, itemId.value);
    }

    /**
     * WebSocket `set_phase`: set the phase, sync the detector (leaving latch
     * `syncLatch`), detect on the current snapshot, and go automatic exactly
     * when the detector agrees with the requested phase. An invalid phase
     * changes nothing.
     */
    method WsSetPhase(phase: string, s: FlightState, syncLatch: bool)
      requires Valid()
      modifies store`currentPhase, store`phaseHistory, store`phaseMode, detector
      ensures Valid()
      ensures ParsePhase(phase).None? ==>
        store.currentPhase == old(store.currentPhase) && store.phaseMode == old(store.phaseMode) &&
        store.phaseHistory == old(store.phaseHistory) && detector.wasAirborne == old(detector.wasAirborne)
      ensures ParsePhase(phase).Some? ==>
        var p := ParsePhase(phase).value;
        var d := Classify(syncLatch, s);
        store.currentPhase == p &&
        store.phaseHistory == RecordVisit(old(store.phaseHistory), old(store.currentPhase), p, true) &&
        (store.phaseMode == Auto <==> d.phase == p) && detector.wasAirborne == d.airborne
      ensures store.checklists == old(store.checklists)
    {
      var p := ParsePhase(phase);
      if p.None? {
        return;
      }
      store.SetPhase(p.value, true);
      detector.SyncToPhase(p.value, syncLatch);
      var detected := detector.Detect(s);
      if p.value == detected {
        store.phaseMode := Auto;
      } else {
        store.phaseMode := Manual;
      }
    }

    /**
     * What the WebSocket step handlers do after stepping: sync the detector to
     * the current phase, detect, and go automatic when the two agree.
     */
    method SyncAndDetect(s: FlightState, syncLatch: bool) returns (detected: Phase)
      requires Valid()
      modifies store`phaseMode, detector
      ensures Valid()
      ensures Detection(detected, detector.wasAirborne) == Classify(syncLatch, s)
      ensures store.phaseMode == if detected == store.currentPhase then Auto else old(store.phaseMode)
    {
      detector.SyncToPhase(store.currentPhase, syncLatch);
      detected := detector.Detect(s);
      if store.currentPhase == detected {
        store.phaseMode := Auto;
      }
    }

    /**
     * WebSocket `next_phase`: step forward, sync the detector to the new
     * current phase, and go automatic when the detector agrees with it;
     * otherwise the mode stays as the step left it.
     */
    method WsNextPhase(s: FlightState, syncLatch: bool) returns (stepped: bool, detected: Phase)
      requires Valid()
      modifies store`currentPhase, store`phaseHistory, store`phaseMode, detector
      ensures Valid()
      ensures stepped <==> NextChecklistPhase(old(store.currentPhase)).Some?
      ensures stepped ==> store.currentPhase == NextChecklistPhase(old(store.currentPhase)).value
      ensures !stepped ==> store.currentPhase == old(store.currentPhase)
      ensures stepped ==>
        store.phaseHistory == RecordVisit(old(store.phaseHistory), old(store.currentPhase), store.currentPhase, true)
      ensures !stepped ==> store.phaseHistory == old(store.phaseHistory)
      ensures Detection(detected, detector.wasAirborne) == Classify(syncLatch, s)
      ensures store.phaseMode == if detected == store.currentPhase then Auto
                                 else if stepped then Manual else old(store.phaseMode)
      ensures store.checklists == old(store.checklists)
    {
      stepped := RestNextPhase();
      detected := SyncAndDetect(s, syncLatch);
    }

    /** WebSocket `prev_phase`: as `next_phase`, stepping back. */
    method WsPrevPhase(s: FlightState, syncLatch: bool) returns (stepped: bool, detected: Phase)
      requires Valid()
      modifies store`currentPhase, store`phaseHistory, store`phaseMode, detector
      ensures Valid()
      ensures stepped <==> PrevChecklistPhase(old(store.currentPhase)).Some?
      ensures stepped ==> store.currentPhase == PrevChecklistPhase(old(store.currentPhase)).value
      ensures !stepped ==> store.currentPhase == old(store.currentPhase)
      ensures Detection(detected, detector.wasAirborne) == Classify(syncLatch, s)
      ensures store.phaseMode == if detected == store.currentPhase then Auto
                                 else if stepped then Manual else old(store.phaseMode)
      ensures store.phaseHistory == old(store.phaseHistory) && store.checklists == old(store.checklists)
    {
      stepped := RestPrevPhase();
      detected := SyncAndDetect(s, syncLatch);
    }

    /** WebSocket `set_mode`: only "auto" and "manual" are accepted. */
    method WsSetMode(mode: Option<string>)
      requires Valid()
      modifies store`phaseMode
      ensures Valid()
      ensures store.phaseMode == RequestedMode(mode, old(store.phaseMode))
    {
      if mode == Some("auto") {
        store.phaseMode := Auto;
      } else if mode == Some("manual") {
        store.phaseMode := Manual;
      }
    }
  }
}
