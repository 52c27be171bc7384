# A320 checklist companion — a Dafny model of its core

The A320 checklist companion is a co-pilot for flight-simulator sessions. It
reads the aircraft's telemetry from the simulator, guesses the flight phase,
shows the normal-procedure checklist for that phase, lets the pilot tick items
(by click or by voice), automatically verifies items that the telemetry can
confirm, and fills SimBrief flight-plan values (fuel, QNH, trim) into checklist
responses.

This project models the decision-making core of the backend and proves
properties of it:

- `flight_state.dfy` (module `Flight`):
  - the fourteen phases and their values and display names;
  - the checklist phase order with its next/previous lookups;
  - the telemetry record;
  - the phase detector, a decision tree over one snapshot plus an "airborne" latch. `Classify` is the tree as a function. `PhaseDetector.Detect` is the method the source has, proved equal to it.
- `simconnect_client.dfy` (module `SimConnect`): the engine-running predicate and the variable map used for automatic verification.
- `simbrief_client.dfy` (module `SimBrief`):
  - the METAR QNH parser;
  - comma-grouped fuel/weight formatting;
  - the unit selection of the flight-plan parser.
- `strings.dfy` (module `Strings`): shared string helpers:
  - decimal and comma-grouped renderings of integers, with their round trips;
  - substring search and replacement;
  - ASCII case mapping.
- `checklist_manager.dfy` (module `Checklists`):
  - checklist items and checklists (values);
  - the four whole-store updates (reset, verification, flight-plan injection, clearing), each a pure function `UpdateAll` plus the nested loop `UpdateItems` proved equal to it;
  - check/uncheck/toggle;
  - the `ChecklistManager` class, which owns the checklists, the current phase, the phase mode, the phase history and the training flag.
- `response_normalize.dfy` (module `TextNormalization`): `normalize_text` of the voice matcher, step by step, and the whitespace word split.
- `response_matcher.dfy` (module `ResponseMatching`):
  - the universal replies and the phrase table;
  - the reverse lookup built at construction, by a loop proved to produce an exact reverse index;
  - the match decision ladder;
  - the accepted-phrase listing.
- `main.dfy` (module `Coordination`): the mode policy of the web server, as methods of a `Coordinator` that owns a store and a detector:
  - the telemetry gate;
  - the REST phase, reset and mode handlers;
  - the WebSocket message branches.
- `wrappers.dfy` (module `Wrappers`): `Option`.

Where the written description of the system and the code disagree, the model
follows the code:

- **The detector is not forward-only.** The description presents it as a forward-only automaton with a transition table. The code decides every snapshot afresh from one latch, and it can move back from TAXI to COCKPIT_PREPARATION (`Flight.ClassifyCanGoBack`).
- **`sync_to_phase` is missing.** The WebSocket `set_phase`, `next_phase` and `prev_phase` branches call `phase_detector.sync_to_phase(...)` (backend/main.py:429, 448, 463), but `PhaseDetector` defines no such method (backend/flight_state.py:100-170).
  - As written, those branches raise `AttributeError` once the store has changed. The generic handler then closes the connection (backend/main.py:498-500).
  - The model gives the detector a `SyncToPhase` whose effect on the latch is supplied by the caller (`syncLatch`). It proves what the branches do for every possible latch.
- **The telemetry record lacks fields the client reads.** `get_variable` and `_engine_running` read fields (combustion flags, N1 RPM, cabin signs, APU, rudder trim, battery) that the declared `FlightState` record does not have. The model's `FlightState` includes them.
- **The transponder is never verified.** `TRANSPONDER_STATE` is listed among the verification variables, but `get_variable` has no entry for it, so it is always skipped (`Coordination.TransponderSkipped`).

## Model

| member | source | states |
|---|---|---|
| Flight.ParsePhase | backend/flight_state.py:6-25 | `Phase(s)`: exactly the phase whose value is `s`. None (Python's ValueError) when no phase has that value. |
| Flight.PhaseDisplayInjective | backend/flight_state.py:43-58 | Every phase has a display name, and distinct phases have distinct names. |
| Flight.ChecklistPhasesDistinct | backend/flight_state.py:29-40 | The checklist phase order lists no phase twice. |
| Flight.IndexOf | backend/flight_state.py:173-192 | `list.index`: None iff the phase is absent. Otherwise the position holds the phase and no earlier position does. |
| Flight.NextChecklistPhase | backend/flight_state.py:173-181 | A successor exists iff the phase is a checklist phase other than SECURING. That successor is the next entry of the order. |
| Flight.PrevChecklistPhase | backend/flight_state.py:184-192 | A predecessor exists iff the phase is a checklist phase other than COCKPIT_PREPARATION. That predecessor is the previous entry of the order. |
| Flight.NextPrevInverse | backend/flight_state.py:173-192 | `prev(next(p)) == p` whenever `next(p)` exists, and `next(prev(p)) == p` whenever `prev(p)` exists. |
| Flight.FlightPhasesHaveNoNeighbours | backend/flight_state.py:29-40 | TAKEOFF_ROLL, CLIMB, CRUISE and DESCENT have neither successor nor predecessor. |
| Flight.ClassifyCharacterised | backend/flight_state.py:107-165 | For each phase, the exact condition on latch, ground flag, engines, brake, ground speed, vertical speed, AGL altitude and gear under which `detect` returns it. LINE_UP and LANDING are never returned. |
| Flight.ClassifyLatch | backend/flight_state.py:107-165 | After `detect` the latch is set iff the phase returned is TAKEOFF_ROLL, CLIMB, CRUISE, DESCENT, APPROACH or AFTER_LANDING. It is always set when airborne. |
| Flight.ClassifyNeedsHistory | backend/flight_state.py:117-145 | SECURING and AFTER_LANDING are only returned with the latch set. COCKPIT_PREPARATION, BEFORE_START, AFTER_START, TAXI and TAKEOFF_ROLL only with it clear. |
| Flight.ClassifyCanGoBack | backend/flight_state.py:117-145 | On the ground without the latch, engines off with the brake set gives COCKPIT_PREPARATION, brake released gives PARKING, and one engine on at 10 kt gives TAXI. So the detector can go back from TAXI to an earlier phase. |
| Flight.PhaseDetector.constructor | backend/flight_state.py:103-105 | Starts with the latch clear and last phase COCKPIT_PREPARATION. |
| Flight.PhaseDetector.Detect | backend/flight_state.py:107-165 | The returned phase and the new latch are exactly `Classify` of the old latch and the snapshot. The assert before the ground-speed tests shows that the final `return TAXI` is unreachable. |
| Flight.PhaseDetector.Reset | backend/flight_state.py:167-170 | Clears the latch and resets the last phase. |
| Flight.PhaseDetector.SyncToPhase | backend/main.py:429 | Stands in for the undefined `sync_to_phase`: touches only the latch, which becomes the given value. |
| SimConnect.EngineRunning | backend/simconnect_client.py:196-206 | An engine runs iff its combustion flag is set, or its N1 exceeds 15, or its N1 RPM exceeds 2457.6 (15 × 163.84). Engine 1 reads the eng1 fields, any other number the eng2 fields. |
| SimConnect.EngineRunningEdges | backend/simconnect_client.py:199-206 | Combustion means running whatever the N1. Exactly 15% (by either reading) without combustion is not running. |
| SimConnect.EnginesRunning | backend/simconnect_client.py:208-212 | `both` is the conjunction over engines 1 and 2, otherwise the disjunction. |
| SimConnect.BothImpliesAny | backend/simconnect_client.py:208-212 | Both-running implies any-running. |
| SimConnect.GetVariable | backend/simconnect_client.py:214-244 | None exactly for names outside the map. Flag names read 0 or 1. Flaps and rudder trim read their fields unchanged. APU_SWITCH and the two engine names read the APU and engine predicates. |
| SimConnect.FlagReading | backend/simconnect_client.py:218-242 | Each flag name reads 1 exactly when the snapshot condition listed for it in an independent table holds, and 0 otherwise. |
| SimBrief.FlightPlan.FormatFuel | backend/simbrief_client.py:50-52 | The result is the number part, a space and the fuel units. The number part is an optional minus and comma-separated digit groups: the first has one to three digits, every later one exactly three. Without its commas it is `str(value)`. |
| SimBrief.FlightPlan.FormatWeight | backend/simbrief_client.py:54-56 | The same, with the weight units. |
| SimBrief.GroupedWithUnitsOk | backend/simbrief_client.py:50-56 | Any grouped rendering followed by a space and any units has that shape. |
| SimBrief.IntGroupedUngroups | backend/simbrief_client.py:50-56 | Removing the commas from the `{value:,}` rendering gives `str(value)`, negative values included. |
| SimBrief.IntGroupedShape | backend/simbrief_client.py:50-56 | The `{value:,}` rendering is an optional minus, a first group of one to three digits, and then groups of exactly three digits, each after a comma. |
| SimBrief.WithUnitsUnique | backend/simbrief_client.py:50-56 | Any string of that shape for a value and units is the `{value:,}` rendering, a space and the units. The shape fixes the string. |
| SimBrief.FormatFuelExample | backend/simbrief_client.py:50-52 | 1234567 with units KG formats as "1,234,567 KG". |
| Strings.GroupThousandsExample | backend/simbrief_client.py:52 | `f"{1234567:,}"` is "1,234,567". |
| Strings.GroupedUnique | backend/simbrief_client.py:50-56 | Two comma-grouped digit strings with the same digits once the commas are removed are equal. |
| Strings.SignedGroupedUnique | backend/simbrief_client.py:50-56 | The same for grouped strings with an optional leading minus. |
| SimBrief.SelectUnits | backend/simbrief_client.py:160-167 | Fuel and weight units are always equal. They are "KG" iff the upper-cased `units` parameter (default "kgs") is "KGS", else "LBS". |
| SimBrief.DefaultUnitsAreKilograms | backend/simbrief_client.py:160-167 | No parameter gives kilograms, and "lbs" gives pounds. |
| SimBrief.SearchTagged | backend/simbrief_client.py:231-237 | `re.search(tag + "(\d{4})")`: the found position is the leftmost match. None iff there is no match. |
| SimBrief.TaggedValue | backend/simbrief_client.py:232-239 | The four digits read as a number of at most 9999. |
| SimBrief.InHgToHpa | backend/simbrief_client.py:239-240 | The hundredths-of-inHg conversion, truncated, is at most 3386 hPa. |
| SimBrief.ParseQnh | backend/simbrief_client.py:223-242 | 0 for an empty METAR. The leftmost `Q####` value when one exists. Otherwise the converted leftmost `A####` value. Otherwise 0. Always at most 9999. |
| SimBrief.ParseQnhInHgBound | backend/simbrief_client.py:236-240 | Without a `Q####` group the result is at most 3386. |
| SimBrief.ParseQnhPrefersQ | backend/simbrief_client.py:231-234 | A `Q` group wins over an earlier `A` group: "A2992 Q1013" gives 1013. |
| SimBrief.ParseQnhInHgExample | backend/simbrief_client.py:236-240 | "KJFK A2992" gives 1013 hPa. |
| Strings.NatToStringRoundTrip | backend/checklist_manager.py:293 | Reading back `str(n)` gives `n`. |
| Strings.ReplaceAll | backend/checklist_manager.py:308 | `str.replace`: a text in which the pattern occurs at no position is returned unchanged. |
| Strings.ReplaceAllFirst | backend/checklist_manager.py:308 | `str.replace` scans from the left without overlaps. When the first occurrence of the pattern starts at `k`, the result is the text before `k`, the replacement, and the replaced rest after that occurrence. |
| Strings.ContainsOccurs | backend/checklist_manager.py:284-308 | The `pat in s` test and the positions `str.replace` scans agree: `Contains(s, pat)` holds iff `pat` occurs at some position of `s`. |
| Checklists.Compare | backend/checklist_manager.py:218-227 | eq/gte/lte/gt/lt give the corresponding comparison. Any other condition, or none, gives no result. |
| Checklists.ChecklistItem.Reset | backend/checklist_manager.py:42-47 | The item is back in its loaded state (unchecked, unverified, response = template, no SimBrief data) with its definition kept. |
| Checklists.NewItem | backend/checklist_manager.py:19-29 | A new item is in its loaded state, and its response template is the given response. |
| Checklists.ItemIndex | backend/checklist_manager.py:74-78 | None iff no item has the id. Otherwise the position of the first item with it. |
| Checklists.Checklist.GetItem | backend/checklist_manager.py:74-78 | The first item with the id, or None iff there is none. |
| Checklists.Checklist.Reset | backend/checklist_manager.py:67-69 | Every item reset, with header and length kept. A non-empty reset checklist is not complete. |
| Checklists.VerifyItem | backend/checklist_manager.py:213-227 | Only `verified` can change. It is set to the comparison result exactly when the item watches this variable and its condition is known. Otherwise the item is unchanged. |
| Checklists.InjectItem | backend/checklist_manager.py:282-308 | An item whose template holds "___" and whose id has a truthy value gets the styled value substituted and the raw value and kind recorded. Every other item is unchanged. `checked`, `verified` and the definition are never touched. |
| Checklists.ClearItem | backend/checklist_manager.py:314-318 | Response back to the template, SimBrief fields cleared, nothing else touched. |
| Checklists.UpdateAll | backend/checklist_manager.py:204-205 | Same checklist keys. Each checklist has the per-item update applied to each of its items. |
| Checklists.UpdateItems | backend/checklist_manager.py:204-205 | The nested loop over all checklists and items computes `UpdateAll`. |
| Checklists.VerifyOnlySetsVerified | backend/checklist_manager.py:211-228 | An `update_verification` pass changes nothing but `verified` on any item, and a second identical pass changes nothing. |
| Checklists.InjectIdempotent | backend/checklist_manager.py:280-308 | Injecting the same data twice equals injecting it once. |
| Checklists.ClearUndoesInject | backend/checklist_manager.py:312-319 | Clearing after an injection equals clearing alone. |
| Checklists.ResetAfterUpdate | backend/checklist_manager.py:202-205 | A reset erases the effect of any earlier item update. |
| Checklists.ResetMakesPristine | backend/checklist_manager.py:42-47 | After `reset_all` every item is in its loaded state with its definition kept. |
| Checklists.MarkItem | backend/checklist_manager.py:172-200 | Check/uncheck/toggle fail iff the checklist or the item id is missing. |
| Checklists.MarkChangesOnlyChecked | backend/checklist_manager.py:172-200 | A successful mark changes only `checked` of the first item with that id in that checklist. Check sets it, uncheck clears it, toggle negates it. Every other checklist and item is unchanged. |
| Checklists.MarkedCompletion | backend/checklist_manager.py:71-72 | `is_complete` (all items checked) after a successful mark: an uncheck leaves the checklist incomplete, a check keeps a complete checklist complete, and the checklist is complete iff the marked item ends up checked and every other item already was. |
| Checklists.CompletionWitness | backend/checklist_manager.py:71-72 | `is_complete` is `all(...)`: an empty checklist is complete, and one unchecked item makes a checklist incomplete. |
| Checklists.ToggleTwice | backend/checklist_manager.py:192-200 | Toggling the same item twice restores all checklists. |
| Checklists.RecordVisitKeepsDistinct | backend/checklist_manager.py:146-152 | Recording a visit keeps the phase history free of duplicates. |
| Checklists.RecordVisitContents | backend/checklist_manager.py:146-152 | The history grows by at most the phase being left. Afterwards it holds exactly the old entries plus, on a recorded change of phase, the phase being left. |
| Checklists.InjectionData | backend/checklist_manager.py:258-289 | The four injectable item ids. Each value is truthy iff its flight-plan number is non-zero. |
| Checklists.PhaseValueInjective | backend/checklist_manager.py:149-150 | Distinct phases have distinct values, so a history of phases equals the source's history of phase values. |
| Checklists.ChecklistManager.constructor | backend/checklist_manager.py:84-90 | Given checklists, first phase, automatic mode, empty history, the given training flag. |
| Checklists.ChecklistManager.SetTrainingMode | backend/checklist_manager.py:126-136 | The same mode changes nothing. A change swaps in the other checklist set and restarts at COCKPIT_PREPARATION, automatic, with empty history. |
| Checklists.ChecklistManager.GetChecklist | backend/checklist_manager.py:142-144 | The checklist for that id, or None iff there is none. |
| Checklists.ChecklistManager.GetCurrentChecklist | backend/checklist_manager.py:138-140 | The checklist keyed by the current phase's value. |
| Checklists.ChecklistManager.GetStateDict | backend/checklist_manager.py:237-246 | Reports the current phase value, which parses back to the current phase, its display name and the mode. The checklist is present iff one is keyed by the phase value, and then it is that checklist. The history lists the value of each recorded phase, in order, each parsing back to its phase. In a valid store it has no repeats. |
| Checklists.ChecklistManager.SetPhase | backend/checklist_manager.py:146-152 | The new phase is current. The history is as `RecordVisit` says (unchanged when the phase is the same). No duplicates are ever introduced. |
| Checklists.ChecklistManager.NextPhase | backend/checklist_manager.py:154-161 | Succeeds iff a successor exists. It then moves there, records the history and sets mode manual. Otherwise nothing changes. |
| Checklists.ChecklistManager.PrevPhase | backend/checklist_manager.py:163-170 | Succeeds iff a predecessor exists. It then moves there with mode manual. Otherwise nothing changes. The history never changes. |
| Checklists.ChecklistManager.MarkItemInPlace | backend/checklist_manager.py:172-200 | The result tells whether the mark applied. The checklists become the marked ones, or stay unchanged on failure. |
| Checklists.ChecklistManager.CheckItem | backend/checklist_manager.py:172-180 | As `MarkItem` with check. |
| Checklists.ChecklistManager.UncheckItem | backend/checklist_manager.py:182-190 | As `MarkItem` with uncheck. |
| Checklists.ChecklistManager.ToggleItem | backend/checklist_manager.py:192-200 | As `MarkItem` with toggle. |
| Checklists.ChecklistManager.ResetAll | backend/checklist_manager.py:202-209 | Every item reset. The store returns to COCKPIT_PREPARATION, automatic, with empty history. |
| Checklists.ChecklistManager.UpdateVerification | backend/checklist_manager.py:211-228 | The checklists become the verification update of the old ones. |
| Checklists.ChecklistManager.InjectFlightPlan | backend/checklist_manager.py:248-310 | No plan changes nothing. Otherwise the injection built from the plan is applied to every item. |
| Checklists.ChecklistManager.ClearFlightPlanData | backend/checklist_manager.py:312-319 | The clearing update is applied to every item. |
| TextNormalization.TrimStart | backend/voice/response_matcher.py:85 | Removes exactly the leading whitespace: everything removed is whitespace, and the result is a suffix that does not start with whitespace. |
| TextNormalization.TrimEnd | backend/voice/response_matcher.py:85 | Removes exactly the trailing whitespace: everything removed is whitespace, and the result is a prefix that does not end with whitespace. |
| TextNormalization.Strip | backend/voice/response_matcher.py:85 | `str.strip()`: the result is a slice of the input with only whitespace before and after it in the input, and it is empty or begins and ends with a non-whitespace character. |
| TextNormalization.RemovePunctuation | backend/voice/response_matcher.py:87 | Only word characters, whitespace and hyphens of the input remain. |
| TextNormalization.RemovePunctuationCounts | backend/voice/response_matcher.py:87 | Every kept character occurs in the result as often as in the input. |
| TextNormalization.RemovePunctuationAppend | backend/voice/response_matcher.py:87 | The filter distributes over concatenation, so the kept characters stay in their order. |
| TextNormalization.Collapse | backend/voice/response_matcher.py:89 | Every whitespace run becomes one space. The result has no two spaces in a row and is empty iff the input is. It starts with a space iff the input starts with whitespace, and ends with a space iff the input ends with whitespace, so a trailing run survives as one space. With `SplitCollapse` this fixes the result. |
| TextNormalization.SplitCollapse | backend/voice/response_matcher.py:89 | Collapsing whitespace changes neither the words that `split()` finds nor their order. |
| TextNormalization.Normalize | backend/voice/response_matcher.py:82-90 | The output holds only lower-case word characters, spaces and hyphens, never two whitespace characters in a row. |
| TextNormalization.NormalizeWords | backend/voice/response_matcher.py:82-90 | The words of the normalised text are those of the lower-cased text with punctuation removed, in the same order. |
| TextNormalization.StripWords | backend/voice/response_matcher.py:85-87 | Stripping before the punctuation filter changes no word of the split. |
| TextNormalization.NormalFormAlphabet | backend/voice/response_matcher.py:82-90 | Any character of a normalised text is in that alphabet. |
| TextNormalization.CleanIsNormal | backend/voice/response_matcher.py:82-90 | A text of that alphabet with only single inner spaces is its own normal form. |
| TextNormalization.NormalizeNotIdempotent | backend/voice/response_matcher.py:85-89 | Normalising twice can differ from normalising once: ".  a" gives " a", which gives "a". |
| TextNormalization.TakeWord | backend/voice/response_matcher.py:125-126 | The longest whitespace-free prefix: it holds no whitespace, and the character after it, if any, is whitespace. It is non-empty when the text starts with a non-space. |
| TextNormalization.SplitWordsOccur | backend/voice/response_matcher.py:125-126 | Every word of `split()` occurs in the text. |
| TextNormalization.SplitLeadingSpaces | backend/voice/response_matcher.py:125-126 | Whitespace in front of a text does not change its `split()`. |
| TextNormalization.SplitTrailingSpaces | backend/voice/response_matcher.py:125-126 | Whitespace after a text does not change its `split()`. |
| ResponseMatching.Decide | backend/voice/response_matcher.py:103-132 | Accepted iff the confidence is positive. The confidence is one of 0, 0.7, 0.8, 0.9, 1.0, and it is 1.0 iff the normalised texts are equal. |
| ResponseMatching.DecideReverseRedundant | backend/voice/response_matcher.py:118-122 | A reverse-lookup hit that implies a table hit cannot change the decision. |
| ResponseMatching.ReverseHitIsTableHit | backend/voice/response_matcher.py:113-122 | With an exact reverse index, every reverse-lookup hit is already a table hit. |
| ResponseMatching.BuildReverseIndex | backend/voice/response_matcher.py:73-80 | The loop builds an exact reverse index. Each listed phrase maps to a non-empty list of exactly the responses that list it, and nothing else is in the map. |
| ResponseMatching.Dedup | backend/voice/response_matcher.py:142 | `list(set(s))`: the same elements, each once. |
| ResponseMatching.ResponseMatcher.constructor | backend/voice/response_matcher.py:73-80 | The matcher's reverse lookup is an exact reverse index of the phrase table. |
| ResponseMatching.ResponseMatcher.Match | backend/voice/response_matcher.py:92-132 | Accepted iff the confidence is positive. With the reverse lookup built by the constructor, the result is the ladder with the reverse-lookup rung removed. |
| ResponseMatching.ResponseMatcher.MatchNormalisedKeys | backend/voice/response_matcher.py:113-116 | `match` with table keys compared after normalisation. Accepted iff the confidence is positive. |
| ResponseMatching.ResponseMatcher.AcceptedPhrases | backend/voice/response_matcher.py:134-142 | Exactly the universal replies plus the phrases listed for the normalised expected response, with no duplicates. |
| ResponseMatching.AcceptedPhraseInReplyMatches | backend/voice/response_matcher.py:108-116 | A reply containing an accepted phrase is matched with confidence at least 0.8. |
| ResponseMatching.SilenceAccepted | backend/voice/response_matcher.py:113-116 | A reply that normalises to the empty text is accepted for every expected response that is a table key. |
| ResponseMatching.PhraseListsNonEmpty | backend/voice/response_matcher.py:18-67 | Every table key lists at least one phrase. |
| ResponseMatching.AllExpectedWordsSpoken | backend/voice/response_matcher.py:124-130 | A reply holding every expected word is accepted. |
| ResponseMatching.SingleWordNotSpoken | backend/voice/response_matcher.py:124-130 | A one-word expected text that does not occur in the reply shares no word with it, so the overlap rung fails. |
| ResponseMatching.ListedPhraseRejected | backend/voice/response_matcher.py:113-116 | As written, the reply "t o", listed for key "t.o.", is refused for the expected response "T.O.". |
| ResponseMatching.ListedPhraseAccepted | backend/voice/response_matcher.py:113-116 | With normalised keys, a reply containing any phrase listed for a response is accepted for that response. |
| Coordination.VerificationsOnlySetVerified | backend/main.py:57-60 | A telemetry update's verification pass changes nothing but `verified`: same checklists, same items, same headers. |
| Coordination.TransponderSkipped | backend/main.py:36-52 | TRANSPONDER_STATE is listed but never has a value, so it verifies nothing. |
| Coordination.AdoptedPhase | backend/main.py:64-68 | The detected phase is adopted iff it has a checklist (or is already current). Otherwise the current phase stays. |
| Coordination.AdoptedPhaseHasChecklist | backend/main.py:64-68 | The gate never leaves the store on a phase without a checklist. Detected TAKEOFF_ROLL, CLIMB, CRUISE or DESCENT leave it where it was. |
| Coordination.RequestedMode | backend/main.py:485-488 | "auto" and "manual" select that mode. Anything else, including a missing field, keeps the current one. |
| Coordination.Coordinator.constructor | backend/main.py:30-33 | The coordinator owns the given store and detector. |
| Coordination.Coordinator.OfferVerifications | backend/main.py:57-60 | Each listed variable with a value is passed to `update_verification` in order, and those without one are skipped. |
| Coordination.Coordinator.OnStateUpdate | backend/main.py:55-68 | Verification runs in both modes. In auto mode the latch and phase follow `Classify` and the adopted phase, with history recorded. In manual mode phase, history and latch are unchanged. The mode and training flag never change. |
| Coordination.Coordinator.RestSetPhase | backend/main.py:237-251 | A valid phase is set with history and the mode becomes manual, with no detection. An invalid one changes nothing. Only phase, history and mode may change, so the training flag and the checklists stay. |
| Coordination.Coordinator.Reset | backend/main.py:254-264 | Store and detector both start over: items reset, first phase, automatic, empty history, latch clear. The training flag is outside the frame and stays. |
| Coordination.Coordinator.SetMode | backend/main.py:267-288 | The mode becomes the requested one. |
| Coordination.Coordinator.RestNextPhase | backend/main.py:209-220 | Succeeds iff a successor exists. On success the phase steps forward, the phase left is recorded as `RecordVisit` says, and the mode becomes manual. On failure phase, mode and history are unchanged. Only phase, history and mode may change. |
| Coordination.Coordinator.RestPrevPhase | backend/main.py:223-234 | Succeeds iff a predecessor exists. On success the phase steps back and the mode becomes manual. History and checklists are untouched. Only phase and mode may change. |
| Coordination.Coordinator.WsCheckItem | backend/main.py:410-421 | A message without both string fields changes nothing. Otherwise the item is toggled as `MarkItem` says. |
| Coordination.Coordinator.WsSetPhase | backend/main.py:424-443 | An invalid phase changes nothing. A valid one becomes current with history. The mode becomes auto iff detection after the sync returns that same phase, else manual. The training flag and the checklists stay. |
| Coordination.Coordinator.SyncAndDetect | backend/main.py:447-452 | The detector, synced to the current phase, runs once. The mode becomes auto iff it agrees with the current phase, and is otherwise left as it was. |
| Coordination.Coordinator.WsNextPhase | backend/main.py:445-459 | The step succeeds iff a successor exists. A successful step records the phase left as `RecordVisit` says, and a failed one leaves the history. Afterwards the mode is auto when the current phase equals the detector output, manual after a successful step, and unchanged after a failed one. The training flag and the checklists stay. |
| Coordination.Coordinator.WsPrevPhase | backend/main.py:461-473 | As `next_phase`, stepping back. History, training flag and checklists are untouched. |
| Coordination.Coordinator.WsSetMode | backend/main.py:485-488 | The mode becomes `RequestedMode` of the message's mode field. |

## Left out

- Loading checklist files (`_load_checklists`, and the reload inside `set_training_mode`) is file I/O. The checklists are an input of the manager's constructor and of `SetTrainingMode`. `config.TRAINING_CHECKLIST_FILE`, which the loader uses, is not defined in backend/config.py.
- `to_dict`, `get_all_checklists` and the JSON shape of `get_state_dict`. `GetStateDict` returns the same fields as a record, with the current checklist as a value.
- `config.AUTO_PHASE_TRANSITION` is taken to be true.
- Web transport, WebSocket broadcasting, HTTP error mapping, `periodic_broadcast`, `lifespan` and static files are left out. The handlers are methods that return the success flag. The snapshot and the latch left by `sync_to_phase` are parameters.
- The simulator connection, polling and fuel conversion are left out. The telemetry snapshot is an input.
- The SimBrief network fetch and the float parsing of the trim are left out. The trim's `str` and `:.1f` renderings are opaque string inputs of `InjectFlightPlan`.
- Voice capture, speech-to-text, text-to-speech, settings persistence and the WebSocket connection manager are I/O and concurrency, and are left out.
- Floating point: telemetry values are exact reals. The inHg conversion is exact rational arithmetic truncated to an integer. The overlap ratio of `match` is compared as `2·shared ≥ expected`.
- Only ASCII is modelled. Python's `\w`, `\d`, `\s`, `lower`, `upper` and `strip` also act on non-ASCII characters; the model classifies only ASCII.
- Order is left out in these places:
  - the order of each reverse-index list;
  - the order of `list(set(...))` in `get_accepted_phrases`;
  - the iteration order over checklists.
  Only membership and uniqueness are observable through the modelled operations.
- Object aliasing (a caller holding a reference to a checklist or an item and seeing later in-place changes) is left out. Items and checklists are values inside the manager's map.
- A `verify` block without a `value` would make an ordered comparison raise `TypeError`. In the model `expected` is always a number.
- Coordination.Coordinator.OnStateUpdate: the model runs the verification pass and the phase gate to completion. As written, the first `get_variable` call raises `AttributeError`, so the pass stops there (backend/main.py:58-59). `start_polling` catches the error and logs it (backend/simconnect_client.py:174-181). So neither automatic verification nor automatic phase detection ever happens in the source.
- SimConnect.GetVariable: the model reads a record that has every field the map uses. The source builds the whole map before the lookup, and it reads `seatbelt_sign`, `eng1_combustion`, `eng1_n1_rpm` and other fields that the `FlightState` record does not declare (backend/flight_state.py:61-95). So every call raises `AttributeError`, whatever the name asked for.
- Checklists.ChecklistManager.SetTrainingMode: the model swaps in the given checklists and restarts. As written, switching on sets the flag and clears the checklists (backend/checklist_manager.py:129-130). The reload then raises `AttributeError` at line 94, because the configuration defines no `TRAINING_CHECKLIST_FILE`, and line 94 is outside the `try`. So the reset at lines 133-135 never runs, and a manager built with training mode on fails at start-up (backend/main.py:30).
- Flight.PhaseDetector.SyncToPhase: the source defines no `sync_to_phase`, so only its effect on the latch is modelled, as an input. The `AttributeError` that the real handlers raise at that call is not modelled.

## Findings

| source | as written | input that shows it | evidently intended | confidence | as-written member | corrected member |
|---|---|---|---|---|---|---|
| backend/voice/response_matcher.py:113-116 | The table is looked up with the normalised expected text. The keys "t.o.", "ta/ra", "t.o. (both)", "t.o. no blue", "___set (both)", "___% set", "closed (both)" and "checked (both)" contain characters that normalisation removes, so no normalised text ever equals them and their phrase lists are never consulted. | spoken "t o", expected "T.O.": the reply normalises to "t o" and the expected text to "to", and the reply is refused although "t o" is listed for "t.o." | the keys are compared in normalised form, so that each listed phrase is accepted for its response | not executed | ResponseMatching.ResponseMatcher.Match, ResponseMatching.ListedPhraseRejected | ResponseMatching.ResponseMatcher.MatchNormalisedKeys, ResponseMatching.ListedPhraseAccepted |
