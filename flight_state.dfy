/**
 * Flight phases, the telemetry record and the phase detector
 * (backend/flight_state.py).
 */
module Flight {
  import opened Wrappers

  datatype Phase =
    // departure phases
    | CockpitPreparation | BeforeStart | AfterStart | Taxi | LineUp
    // flight phases: detection only, no checklist
    | TakeoffRoll | Climb | Cruise | Descent
    // arrival phases
    | Approach | Landing | AfterLanding | Parking | Securing

  /** The string value of each enum member. */
  function PhaseValue(p: Phase): string {
    match p
    case CockpitPreparation => "cockpit_preparation"
    case BeforeStart => "before_start"
    case AfterStart => "after_start"
    case Taxi => "taxi"
    case LineUp => "line_up"
    case TakeoffRoll => "takeoff_roll"
    case Climb => "climb"
    case Cruise => "cruise"
    case Descent => "descent"
    case Approach => "approach"
    case Landing => "landing"
    case AfterLanding => "after_landing"
    case Parking => "parking"
    case Securing => "securing"
  }

  /** `Phase(s)`: the member whose value is `s`; `None` where Python raises ValueError. */
  function ParsePhase(s: string): (r: Option<Phase>)
    ensures r.Some? ==> PhaseValue(r.value) == s
    ensures forall p :: PhaseValue(p) == s ==> r == Some(p)
  {
    if s == "cockpit_preparation" then Some(CockpitPreparation)
    else if s == "before_start" then Some(BeforeStart)
    else if s == "after_start" then Some(AfterStart)
    else if s == "taxi" then Some(Taxi)
    else if s == "line_up" then Some(LineUp)
    else if s == "takeoff_roll" then Some(TakeoffRoll)
    else if s == "climb" then Some(Climb)
    else if s == "cruise" then Some(Cruise)
    else if s == "descent" then Some(Descent)
    else if s == "approach" then Some(Approach)
    else if s == "landing" then Some(Landing)
    else if s == "after_landing" then Some(AfterLanding)
    else if s == "parking" then Some(Parking)
    else if s == "securing" then Some(Securing)
    else None
  }

  /** PHASE_DISPLAY: every phase has an entry. */
  function PhaseDisplay(p: Phase): string {
    match p
    case CockpitPreparation => "COCKPIT PREP"
    case BeforeStart => "BEFORE START"
    case AfterStart => "AFTER START"
    case Taxi => "TAXI"
    case LineUp => "LINE-UP"
    case TakeoffRoll => "TAKEOFF"
    case Climb => "CLIMB"
    case Cruise => "CRUISE"
    case Descent => "DESCENT"
    case Approach => "APPROACH"
    case Landing => "LANDING"
    case AfterLanding => "AFTER LANDING"
    case Parking => "PARKING"
    case Securing => "SECURING"
  }

  /** Distinct phases have distinct display names, so the display name identifies the phase. */
  lemma PhaseDisplayInjective(p: Phase, q: Phase)
    ensures PhaseDisplay(p) == PhaseDisplay(q) ==> p == q
  {
  }

  /** CHECKLIST_PHASES, in order. */
  const ChecklistPhases: seq<Phase> :=
    [CockpitPreparation, BeforeStart, AfterStart, Taxi, LineUp,
     Approach, Landing, AfterLanding, Parking, Securing]

  predicate NoDuplicates<T(==)>(s: seq<T>) {
    forall i, j :: 0 <= i < j < |s| ==> s[i] != s[j]
  }

  lemma ChecklistPhasesDistinct()
    ensures NoDuplicates(ChecklistPhases)
  {
  }

  /** `s.index(p)`: the first position of `p`, or `None` where Python raises ValueError. */
  function IndexOf(s: seq<Phase>, p: Phase): (r: Option<nat>)
    ensures r.None? <==> p !in s
    ensures r.Some? ==> r.value < |s| && s[r.value] == p && p !in s[..r.value]
  {
    if s == [] then None
    else if s[0] == p then Some(0)
    else match IndexOf(s[1..], p)
      case None => None
      case Some(i) => assert s[..i + 1] == [s[0]] + s[1..][..i]; Some(i + 1)
  }

  /** SECURING closes the order: no earlier position holds it. */
  lemma SecuringIsLast()
    ensures forall j :: 0 <= j < |ChecklistPhases| - 1 ==> ChecklistPhases[j] != Securing
  {
  }

  /** get_next_checklist_phase. */
  function NextChecklistPhase(current: Phase): (r: Option<Phase>)
    ensures r.Some? <==> current in ChecklistPhases && current != Securing
    ensures r.Some? ==> exists i :: (0 <= i < |ChecklistPhases| - 1 &&
                                     ChecklistPhases[i] == current && ChecklistPhases[i + 1] == r.value)
  {
    match IndexOf(ChecklistPhases, current)
    case None => None
    case Some(i) =>
      SecuringIsLast();
      if i < |ChecklistPhases| - 1 then Some(ChecklistPhases[i + 1]) else None
  }

  /** get_prev_checklist_phase. */
  function PrevChecklistPhase(current: Phase): (r: Option<Phase>)
    ensures r.Some? <==> current in ChecklistPhases && current != CockpitPreparation
    ensures r.Some? ==> exists i :: (0 < i < |ChecklistPhases| &&
                                     ChecklistPhases[i] == current && ChecklistPhases[i - 1] == r.value)
  {
    match IndexOf(ChecklistPhases, current)
    case None => None
    case Some(i) => if i > 0 then Some(ChecklistPhases[i - 1]) else None
  }

  /** In a sequence without duplicates, the first position of an element is its only one. */
  lemma IndexOfDistinct(s: seq<Phase>, i: nat)
    requires NoDuplicates(s) && i < |s|
    ensures IndexOf(s, s[i]) == Some(i)
  {
  }

  /** Stepping forward and then back returns to the start. */
  lemma NextThenPrev(p: Phase)
    ensures NextChecklistPhase(p).Some? ==> PrevChecklistPhase(NextChecklistPhase(p).value) == Some(p)
  {
    var cp := ChecklistPhases;
    var ix := IndexOf(cp, p);
    if ix.Some? && ix.value + 1 < |cp| {
      var i := ix.value;
      ChecklistPhasesDistinct();
      IndexOfDistinct(cp, i + 1);
      assert NextChecklistPhase(p) == Some(cp[i + 1]);
    }
  }

  /** Stepping back and then forward returns to the start. */
  lemma PrevThenNext(p: Phase)
    ensures PrevChecklistPhase(p).Some? ==> NextChecklistPhase(PrevChecklistPhase(p).value) == Some(p)
  {
    var cp := ChecklistPhases;
    var ix := IndexOf(cp, p);
    if ix.Some? && ix.value > 0 {
      var i := ix.value;
      ChecklistPhasesDistinct();
      IndexOfDistinct(cp, i - 1);
      assert PrevChecklistPhase(p) == Some(cp[i - 1]);
    }
  }

  /** Stepping forward and then back returns to the start, and the other way round. */
  lemma NextPrevInverse(p: Phase)
    ensures NextChecklistPhase(p).Some? ==> PrevChecklistPhase(NextChecklistPhase(p).value) == Some(p)
    ensures PrevChecklistPhase(p).Some? ==> NextChecklistPhase(PrevChecklistPhase(p).value) == Some(p)
  {
    NextThenPrev(p);
    PrevThenNext(p);
  }

  /** The detection-only phases have no neighbours in the checklist order. */
  lemma FlightPhasesHaveNoNeighbours(p: Phase)
    requires p in {TakeoffRoll, Climb, Cruise, Descent}
    ensures NextChecklistPhase(p) == None && PrevChecklistPhase(p) == None
  {
  }

  /**
   * FlightState, extended with the fields that backend/simconnect_client.py
   * polls and reads but that the declared record leaves out
   * (eng1Combustion .. masterBattery below the blank line).
   * Floats are exact reals: the core only compares them with thresholds.
   */
  datatype FlightState = FlightState(
    simOnGround: bool,
    altitudeAgl: real,
    altitudeMsl: real,
    verticalSpeed: real,
    indicatedAirspeed: real,
    groundVelocity: real,
    gearHandlePosition: bool,
    flapsPercent: real,
    spoilersArmed: bool,
    parkingBrake: bool,
    eng1Running: bool,
    eng2Running: bool,
    eng1N1: real,
    eng2N1: real,
    lightBeacon: bool,
    lightNav: bool,
    lightLanding: bool,
    lightTaxi: bool,
    lightStrobe: bool,
    transponderState: int,
    autopilotMaster: bool,
    fuelTotalKg: real,
    altimeterHpa: int,

    eng1Combustion: bool,
    eng2Combustion: bool,
    eng1N1Rpm: real,
    eng2N1Rpm: real,
    seatbeltSign: bool,
    noSmokingSign: bool,
    apuPctRpm: real,
    apuGenSwitch: bool,
    rudderTrimPct: real,
    elevatorTrim: real,
    masterBattery: bool)

  /** The engine test `detect` uses: the eng*_running flags, not the N1-based predicate. */
  predicate AnyEngineRunning(s: FlightState) {
    s.eng1Running || s.eng2Running
  }

  /** What one call of `detect` yields: the phase and the new `_was_airborne` latch. */
  datatype Detection = Detection(phase: Phase, airborne: bool)

  /** The decision tree of `detect` as a function of the latch and the snapshot. */
  function Classify(wasAirborne: bool, s: FlightState): Detection {
    var engines := AnyEngineRunning(s);
    if s.simOnGround then
      if wasAirborne then
        if s.groundVelocity < 5.0 && !engines then
          Detection(if s.parkingBrake then Parking else Securing, false)
        else
          Detection(AfterLanding, true)
      else if !engines then
        Detection(if s.parkingBrake then CockpitPreparation else Parking, false)
      else if s.parkingBrake then
        Detection(AfterStart, false)
      else if s.groundVelocity < 5.0 then
        Detection(BeforeStart, false)
      else if s.groundVelocity < 30.0 then
        Detection(Taxi, false)
      else
        Detection(TakeoffRoll, true)
    else
      Detection(
        if s.verticalSpeed > 500.0 then Climb
        else if s.verticalSpeed < -500.0 then
          (if s.altitudeAgl < 3000.0 || s.gearHandlePosition then Approach else Descent)
        else if s.altitudeAgl < 3000.0 then Approach
        else Cruise,
        true)
  }

  /**
   * Each result of `detect`, characterised by the inputs that produce it.
   * Together the clauses cover every input, so they are an independent
   * restatement of the whole tree, organised by output instead of by branch.
   */
  lemma ClassifyCharacterised(latch: bool, s: FlightState)
    ensures var d := Classify(latch, s); var g, eng, brake, gs := s.simOnGround, AnyEngineRunning(s), s.parkingBrake, s.groundVelocity;
      && (d.phase == CockpitPreparation <==> g && !latch && !eng && brake)
      && (d.phase == Parking <==> g && !eng && ((!latch && !brake) || (latch && gs < 5.0 && brake)))
      && (d.phase == Securing <==> g && latch && !eng && gs < 5.0 && !brake)
      && (d.phase == AfterLanding <==> g && latch && (eng || gs >= 5.0))
      && (d.phase == AfterStart <==> g && !latch && eng && brake)
      && (d.phase == BeforeStart <==> g && !latch && eng && !brake && gs < 5.0)
      && (d.phase == Taxi <==> g && !latch && eng && !brake && 5.0 <= gs < 30.0)
      && (d.phase == TakeoffRoll <==> g && !latch && eng && !brake && gs >= 30.0)
      && (d.phase == Climb <==> !g && s.verticalSpeed > 500.0)
      && (d.phase == Descent <==> !g && s.verticalSpeed < -500.0 && s.altitudeAgl >= 3000.0 && !s.gearHandlePosition)
      && (d.phase == Approach <==>
            (!g && s.verticalSpeed <= 500.0 &&
             (s.altitudeAgl < 3000.0 || (s.verticalSpeed < -500.0 && s.gearHandlePosition))))
      && (d.phase == Cruise <==> !g && -500.0 <= s.verticalSpeed <= 500.0 && s.altitudeAgl >= 3000.0)
      && d.phase != LineUp && d.phase != Landing
  {
  }

  /** The phases after which the latch is set. */
  predicate LatchingPhase(p: Phase) {
    p in {TakeoffRoll, Climb, Cruise, Descent, Approach, AfterLanding}
  }

  /** The new latch is determined by the phase returned: it is set exactly after the latching phases. */
  lemma ClassifyLatch(latch: bool, s: FlightState)
    ensures Classify(latch, s).airborne <==> LatchingPhase(Classify(latch, s).phase)
    ensures !s.simOnGround ==> Classify(latch, s).airborne
  {
  }

  /** SECURING needs a previous flight; COCKPIT_PREPARATION and the departure phases need none. */
  lemma ClassifyNeedsHistory(latch: bool, s: FlightState)
    ensures Classify(latch, s).phase == Securing ==> latch
    ensures Classify(latch, s).phase == AfterLanding ==> latch
    ensures Classify(latch, s).phase in {CockpitPreparation, BeforeStart, AfterStart, Taxi, TakeoffRoll} ==> !latch
  {
  }

  /**
   * `detect` is not forward-only: from a taxiing aircraft, a snapshot with the
   * engines off and the brake released yields PARKING, a later phase, and one
   * with the brake set then yields COCKPIT_PREPARATION, an earlier one.
   */
  lemma ClassifyCanGoBack(s: FlightState)
    requires s.simOnGround && !AnyEngineRunning(s) && s.parkingBrake
    ensures Classify(false, s).phase == CockpitPreparation
    ensures Classify(false, s.(parkingBrake := false)).phase == Parking
    ensures Classify(false, s.(eng1Running := true, parkingBrake := false, groundVelocity := 10.0)).phase == Taxi
  {
  }

  class PhaseDetector {
    var wasAirborne: bool
    /** Written by `reset` and never read. */
    var lastPhase: Phase

    constructor ()
      ensures !wasAirborne && lastPhase == CockpitPreparation
    {
      wasAirborne := false;
      lastPhase := CockpitPreparation;
    }

    /** `detect`: the result and the new latch are `Classify` of the old latch and the snapshot. */
    method Detect(s: FlightState) returns (p: Phase)
      modifies this`wasAirborne
      ensures Detection(p, wasAirborne) == Classify(old(wasAirborne), s)
    {
      var engines := s.eng1Running || s.eng2Running;
      if s.simOnGround {
        if wasAirborne {
          if s.groundVelocity < 5.0 {
            if !engines {
              wasAirborne := false;
              if s.parkingBrake {
                return Parking;
              }
              return Securing;
            }
            return AfterLanding;
          }
          return AfterLanding;
        }
        if !engines {
          if s.parkingBrake {
            return CockpitPreparation;
          }
          return Parking;
        }
        if s.parkingBrake {
          return AfterStart;
        }
        // The source's second guard always holds here, so its final `return TAXI` is unreachable.
        assert engines && !s.parkingBrake;
        if s.groundVelocity < 5.0 {
          return BeforeStart;
        }
        if s.groundVelocity < 30.0 {
          return Taxi;
        }
        wasAirborne := true;
        return TakeoffRoll;
      } else {
        wasAirborne := true;
        if s.verticalSpeed > 500.0 {
          return Climb;
        }
        if s.verticalSpeed < -500.0 {
          if s.altitudeAgl < 3000.0 || s.gearHandlePosition {
            return Approach;
          }
          return Descent;
        }
        if s.altitudeAgl < 3000.0 {
          return Approach;
        }
        return Cruise;
      }
    }

    /** `reset`: clears the latch. */
    method Reset()
      modifies this
      ensures !wasAirborne && lastPhase == CockpitPreparation
    {
      wasAirborne := false;
      lastPhase := CockpitPreparation;
    }

    /**
     * `sync_to_phase`, which the handlers call but the class does not define.
     * Its effect is unknown: the latch it leaves is supplied by the caller.
     */
    method SyncToPhase(p: Phase, latch: bool)
      modifies this`wasAirborne
      ensures wasAirborne == latch
    {
      wasAirborne := latch;
    }
  }
}
