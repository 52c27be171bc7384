/**
 * The pure readers of the SimConnect client (backend/simconnect_client.py):
 * the engine-running predicate and the variable map used for checklist
 * verification. Values are reals; booleans read as 1 and 0, as Python
 * compares `True == 1`.
 */
module SimConnect {
  import opened Wrappers
  import opened Flight

  /** Scale from the raw N1 RPM reading to percent. */
  const RpmScale: real := 163.84
  /** An engine runs above this N1 percentage. */
  const RunningThreshold: real := 15.0

  function BoolValue(b: bool): real {
    if b then 1.0 else 0.0
  }

  /** `eng*_n1_rpm / 163.84 if eng*_n1_rpm else 0`. */
  function RpmPercent(rpm: real): real {
    if rpm != 0.0 then rpm / RpmScale else 0.0
  }

  function Max(a: real, b: real): real {
    if a >= b then a else b
  }

  /** `_engine_running(engine)`: engine 1 reads the eng1 fields, any other number the eng2 fields. */
  function EngineRunning(s: FlightState, engine: int): (r: bool)
    ensures engine == 1 ==> (r <==> s.eng1Combustion || s.eng1N1 > 15.0 || s.eng1N1Rpm > 2457.6)
    ensures engine != 1 ==> (r <==> s.eng2Combustion || s.eng2N1 > 15.0 || s.eng2N1Rpm > 2457.6)
  {
    var n1Pct := if engine == 1 then s.eng1N1 else s.eng2N1;
    var n1Rpm := RpmPercent(if engine == 1 then s.eng1N1Rpm else s.eng2N1Rpm);
    var combustion := if engine == 1 then s.eng1Combustion else s.eng2Combustion;
    Max(n1Pct, n1Rpm) > RunningThreshold || combustion
  }

  /** A set combustion flag means running whatever the N1 readings; exactly 15% does not. */
  lemma EngineRunningEdges(s: FlightState)
    ensures s.eng1Combustion ==> EngineRunning(s, 1)
    ensures s.eng2Combustion ==> EngineRunning(s, 2)
    ensures !s.eng1Combustion && s.eng1N1 == 15.0 && s.eng1N1Rpm <= 2457.6 ==> !EngineRunning(s, 1)
    ensures !s.eng1Combustion && s.eng1N1 <= 15.0 && s.eng1N1Rpm == 15.0 * RpmScale ==> !EngineRunning(s, 1)
  {
  }

  /** `_engines_running(both)`: conjunction over engines 1 and 2, or disjunction. */
  function EnginesRunning(s: FlightState, both: bool): (r: bool)
    ensures both ==> (r <==> EngineRunning(s, 1) && EngineRunning(s, 2))
    ensures !both ==> (r <==> EngineRunning(s, 1) || EngineRunning(s, 2))
  {
    if both then EngineRunning(s, 1) && EngineRunning(s, 2)
    else EngineRunning(s, 1) || EngineRunning(s, 2)
  }

  lemma BothImpliesAny(s: FlightState)
    ensures EnginesRunning(s, true) ==> EnginesRunning(s, false)
  {
  }

  /** The keys of `var_map` in `get_variable`. */
  const VariableNames: set<string> := {
    "BRAKE_PARKING_POSITION", "LIGHT_BEACON", "TRAILING_EDGE_FLAPS_LEFT_PERCENT",
    "SPOILERS_ARMED", "GEAR_HANDLE_POSITION", "LIGHT_NAV", "LIGHT_LANDING",
    "LIGHT_TAXI", "LIGHT_STROBE", "CABIN_SEATBELTS_ALERT_SWITCH",
    "CABIN_NO_SMOKING_ALERT_SWITCH", "APU_SWITCH", "APU_GENERATOR_SWITCH",
    "RUDDER_TRIM_PCT", "ENG_COMBUSTION", "ENG_COMBUSTION_ANY", "ELECTRICAL_MASTER_BATTERY"
  }

  /** The names whose value is a flag (read as 1 or 0); the others are numeric fields. */
  const NumericNames: set<string> := {"TRAILING_EDGE_FLAPS_LEFT_PERCENT", "RUDDER_TRIM_PCT"}

  /** `get_variable`: the mapped snapshot value, `None` for any other name. */
  function GetVariable(s: FlightState, name: string): (r: Option<real>)
    ensures r.None? <==> name !in VariableNames
    ensures name in VariableNames - NumericNames ==> r.value == 0.0 || r.value == 1.0
    ensures name == "TRAILING_EDGE_FLAPS_LEFT_PERCENT" ==> r == Some(s.flapsPercent)
    ensures name == "RUDDER_TRIM_PCT" ==> r == Some(s.rudderTrimPct)
    ensures name == "APU_SWITCH" ==> r == Some(BoolValue(s.apuPctRpm > 0.0))
    ensures name == "ENG_COMBUSTION" ==> r == Some(BoolValue(EnginesRunning(s, true)))
    ensures name == "ENG_COMBUSTION_ANY" ==> r == Some(BoolValue(EnginesRunning(s, false)))
  {
    if name == "BRAKE_PARKING_POSITION" then Some(BoolValue(s.parkingBrake))
    else if name == "LIGHT_BEACON" then Some(BoolValue(s.lightBeacon))
    else if name == "TRAILING_EDGE_FLAPS_LEFT_PERCENT" then Some(s.flapsPercent)
    else if name == "SPOILERS_ARMED" then Some(BoolValue(s.spoilersArmed))
    else if name == "GEAR_HANDLE_POSITION" then Some(BoolValue(s.gearHandlePosition))
    else if name == "LIGHT_NAV" then Some(BoolValue(s.lightNav))
    else if name == "LIGHT_LANDING" then Some(BoolValue(s.lightLanding))
    else if name == "LIGHT_TAXI" then Some(BoolValue(s.lightTaxi))
    else if name == "LIGHT_STROBE" then Some(BoolValue(s.lightStrobe))
    else if name == "CABIN_SEATBELTS_ALERT_SWITCH" then Some(BoolValue(s.seatbeltSign))
    else if name == "CABIN_NO_SMOKING_ALERT_SWITCH" then Some(BoolValue(s.noSmokingSign))
    else if name == "APU_SWITCH" then Some(BoolValue(s.apuPctRpm > 0.0))
    else if name == "APU_GENERATOR_SWITCH" then Some(BoolValue(s.apuGenSwitch))
    else if name == "RUDDER_TRIM_PCT" then Some(s.rudderTrimPct)
    else if name == "ENG_COMBUSTION" then Some(BoolValue(EnginesRunning(s, true)))
    else if name == "ENG_COMBUSTION_ANY" then Some(BoolValue(EnginesRunning(s, false)))
    else if name == "ELECTRICAL_MASTER_BATTERY" then Some(BoolValue(s.masterBattery))
    else None
  }

  /** The snapshot condition behind each flag name, grouped by the panel it belongs to. */
  function FlagField(s: FlightState, name: string): bool {
    match name
    case "ENG_COMBUSTION" => EngineRunning(s, 1) && EngineRunning(s, 2)
    case "ENG_COMBUSTION_ANY" => EngineRunning(s, 1) || EngineRunning(s, 2)
    case "APU_SWITCH" => s.apuPctRpm > 0.0
    case "APU_GENERATOR_SWITCH" => s.apuGenSwitch
    case "ELECTRICAL_MASTER_BATTERY" => s.masterBattery
    case "LIGHT_BEACON" => s.lightBeacon
    case "LIGHT_NAV" => s.lightNav
    case "LIGHT_LANDING" => s.lightLanding
    case "LIGHT_TAXI" => s.lightTaxi
    case "LIGHT_STROBE" => s.lightStrobe
    case "CABIN_SEATBELTS_ALERT_SWITCH" => s.seatbeltSign
    case "CABIN_NO_SMOKING_ALERT_SWITCH" => s.noSmokingSign
    case "BRAKE_PARKING_POSITION" => s.parkingBrake
    case "SPOILERS_ARMED" => s.spoilersArmed
    case "GEAR_HANDLE_POSITION" => s.gearHandlePosition
    case _ => false
  }

  /** Every flag name reads 1 exactly when its snapshot condition holds, and 0 otherwise. */
  lemma FlagReading(s: FlightState, name: string)
    requires name in VariableNames - NumericNames
    ensures GetVariable(s, name) == Some(BoolValue(FlagField(s, name)))
  {
    if name in {"LIGHT_BEACON", "LIGHT_NAV", "LIGHT_LANDING", "LIGHT_TAXI", "LIGHT_STROBE"} {
      LightFlags(s, name);
    } else if name in {"ENG_COMBUSTION", "ENG_COMBUSTION_ANY", "APU_SWITCH", "APU_GENERATOR_SWITCH"} {
      PowerFlags(s, name);
    } else {
      OtherFlags(s, name);
    }
  }

  lemma LightFlags(s: FlightState, name: string)
    requires name in {"LIGHT_BEACON", "LIGHT_NAV", "LIGHT_LANDING", "LIGHT_TAXI", "LIGHT_STROBE"}
    ensures GetVariable(s, name) == Some(BoolValue(FlagField(s, name)))
  {
  }

  lemma PowerFlags(s: FlightState, name: string)
    requires name in {"ENG_COMBUSTION", "ENG_COMBUSTION_ANY", "APU_SWITCH", "APU_GENERATOR_SWITCH"}
    ensures GetVariable(s, name) == Some(BoolValue(FlagField(s, name)))
  {
  }

  lemma OtherFlags(s: FlightState, name: string)
    requires name in {"BRAKE_PARKING_POSITION", "SPOILERS_ARMED", "GEAR_HANDLE_POSITION",
                      "CABIN_SEATBELTS_ALERT_SWITCH", "CABIN_NO_SMOKING_ALERT_SWITCH", "ELECTRICAL_MASTER_BATTERY"}
    ensures GetVariable(s, name) == Some(BoolValue(FlagField(s, name)))
  {
  }
}
