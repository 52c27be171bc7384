/**
 * backend/checklist_manager.py: checklist items and checklists, and the
 * manager that owns them together with the current phase, the phase mode
 * and the phase history.
 */
module Checklists {
  import opened Wrappers
  import opened Strings
  import opened Flight
  import opened SimBrief

  /** An item's `verify` block: which variable, which comparison, against what. */
  datatype VerifyRule = VerifyRule(variable: Option<string>, condition: Option<string>, expected: real)

  /** The comparison a `verify` condition names, or None for an unknown condition. */
  function Compare(condition: Option<string>, value: real, expected: real): (r: Option<bool>)
    ensures r.Some? <==> condition.Some? && condition.value in {"eq", "gte", "lte", "gt", "lt"}
    ensures condition == Some("eq") ==> r == Some(value == expected)
    ensures condition == Some("gte") ==> r == Some(value >= expected)
    ensures condition == Some("lte") ==> r == Some(value <= expected)
    ensures condition == Some("gt") ==> r == Some(value > expected)
    ensures condition == Some("lt") ==> r == Some(value < expected)
  {
    if condition == Some("eq") then Some(value == expected)
    else if condition == Some("gte") then Some(value >= expected)
    else if condition == Some("lte") then Some(value <= expected)
    else if condition == Some("gt") then Some(value > expected)
    else if condition == Some("lt") then Some(value < expected)
    else None
  }

  datatype ChecklistItem = ChecklistItem(
    id: string,
    challenge: string,
    response: string,
    responseTemplate: string,
    verify: Option<VerifyRule>,
    checked: bool,
    verified: Option<bool>,
    simbriefValue: Option<string>,
    simbriefType: Option<string>)
  {
    /** The state a freshly loaded item is in. */
    predicate Pristine() {
      !checked && verified == None && response == responseTemplate && simbriefValue == None && simbriefType == None
    }

    /** The parts of an item that come from the checklist file and never change. */
    predicate SameDefinition(other: ChecklistItem) {
      id == other.id && challenge == other.challenge && responseTemplate == other.responseTemplate &&
      verify == other.verify
    }

    /** `ChecklistItem.reset`: back to the loaded state, definition kept. */
    function Reset(): (r: ChecklistItem)
      ensures r.Pristine() && r.SameDefinition(this)
    {
      this.(checked := false, verified := None, response := responseTemplate,
            simbriefValue := None, simbriefType := None)
    }
  }

  /** `ChecklistItem.__init__`: the response starts as the template. */
  function NewItem(id: string, challenge: string, response: string, verify: Option<VerifyRule>): (r: ChecklistItem)
    ensures r.Pristine() && r.id == id && r.challenge == challenge && r.responseTemplate == response
    ensures r.verify == verify
  {
    ChecklistItem(id, challenge, response, response, verify, false, None, None, None)
  }

  /** Index of the first item with the given id. */
  function ItemIndex(items: seq<ChecklistItem>, itemId: string): (r: Option<nat>)
    ensures r.None? <==> forall i :: 0 <= i < |items| ==> items[i].id != itemId
    ensures r.Some? ==> (r.value < |items| && items[r.value].id == itemId &&
      forall i :: 0 <= i < r.value ==> items[i].id != itemId)
    decreases |items|
  {
    if items == [] then None
    else if items[0].id == itemId then Some(0)
    else match ItemIndex(items[1..], itemId)
      case None => None
      case Some(i) => Some(i + 1)
  }

  datatype Checklist = Checklist(id: string, title: string, trigger: string, items: seq<ChecklistItem>)
  {
    /** `Checklist.get_item`: the first item with that id. */
    function GetItem(itemId: string): (r: Option<ChecklistItem>)
      ensures r.None? <==> forall i :: 0 <= i < |items| ==> items[i].id != itemId
      ensures r.Some? ==> exists i :: (0 <= i < |items| && items[i] == r.value && r.value.id == itemId &&
        forall j :: 0 <= j < i ==> items[j].id != itemId)
    {
      match ItemIndex(items, itemId)
      case None => None
      case Some(i) => Some(items[i])
    }

    /** `Checklist.is_complete`: every item acknowledged. */
    predicate IsComplete() {
      forall i :: 0 <= i < |items| ==> items[i].checked
    }

    /** `Checklist.reset`: every item reset. */
    function Reset(): (r: Checklist)
      ensures r.id == id && r.title == title && r.trigger == trigger && |r.items| == |items|
      ensures forall i :: 0 <= i < |items| ==> r.items[i].Pristine() && r.items[i].SameDefinition(items[i])
      ensures items != [] ==> !r.IsComplete()
    {
      var r := this.(items := seq(|items|, i requires 0 <= i < |items| => items[i].Reset()));
      assert items != [] ==> !r.items[0].checked;
      r
    }
  }

  // ---------------------------------------------------------------------
  // Updates applied to every item of every checklist

  /** One SimBrief value ready for injection: raw text, kind, display text, truthiness. */
  datatype Injection = Injection(raw: string, kind: string, display: string, present: bool)

  /** The per-item updates the manager applies across all checklists. */
  datatype ItemUpdate =
    | ResetState
    | Verify(variable: string, value: real)
    | Inject(data: map<string, Injection>)
    | ClearPlan

  /** The body of `update_verification` for one item. */
  function VerifyItem(item: ChecklistItem, variable: string, value: real): (r: ChecklistItem)
    ensures r == item.(verified := r.verified)
    ensures (item.verify.Some? && item.verify.value.variable == Some(variable) &&
             Compare(item.verify.value.condition, value, item.verify.value.expected).Some?) ==>
            r.verified == Compare(item.verify.value.condition, value, item.verify.value.expected)
    ensures !(item.verify.Some? && item.verify.value.variable == Some(variable) &&
              Compare(item.verify.value.condition, value, item.verify.value.expected).Some?) ==>
            r == item
  {
    if item.verify.Some? && item.verify.value.variable == Some(variable) then
      var rule := item.verify.value;
      match Compare(rule.condition, value, rule.expected)
      case None => item
      case Some(b) => item.(verified := Some(b))
    else item
  }

  const Placeholder: string := "___"

  /** The styled display text that replaces each placeholder. */
  function Styled(display: string): string {
    "<span class=\"simbrief-value\">" + display + "</span>"
  }

  /** The body of `inject_flight_plan` for one item. */
  function InjectItem(item: ChecklistItem, data: map<string, Injection>): (r: ChecklistItem)
    ensures r.SameDefinition(item) && r.checked == item.checked && r.verified == item.verified
    ensures (Contains(item.responseTemplate, Placeholder) && item.id in data && data[item.id].present) ==>
      r.response == ReplaceAll(item.responseTemplate, Placeholder, Styled(data[item.id].display)) &&
      r.simbriefValue == Some(data[item.id].raw) && r.simbriefType == Some(data[item.id].kind)
    ensures !(Contains(item.responseTemplate, Placeholder) && item.id in data && data[item.id].present) ==>
      r == item
  {
    if !Contains(item.responseTemplate, Placeholder) then item
    else if item.id !in data || !data[item.id].present then item
    else
      var entry := data[item.id];
      item.(simbriefValue := Some(entry.raw), simbriefType := Some(entry.kind),
            response := ReplaceAll(item.responseTemplate, Placeholder, Styled(entry.display)))
  }

  /** The body of `clear_flight_plan_data` for one item. */
  function ClearItem(item: ChecklistItem): (r: ChecklistItem)
    ensures r.SameDefinition(item) && r.checked == item.checked && r.verified == item.verified
    ensures r.response == r.responseTemplate && r.simbriefValue == None && r.simbriefType == None
  {
    item.(response := item.responseTemplate, simbriefValue := None, simbriefType := None)
  }

  function ApplyToItem(u: ItemUpdate, item: ChecklistItem): ChecklistItem {
    match u
    case ResetState => item.Reset()
    case Verify(variable, value) => VerifyItem(item, variable, value)
    case Inject(data) => InjectItem(item, data)
    case ClearPlan => ClearItem(item)
  }

  function UpdateChecklist(c: Checklist, u: ItemUpdate): (r: Checklist)
    ensures r.id == c.id && r.title == c.title && r.trigger == c.trigger && |r.items| == |c.items|
    ensures forall i :: 0 <= i < |c.items| ==> r.items[i] == ApplyToItem(u, c.items[i])
  {
    c.(items := seq(|c.items|, i requires 0 <= i < |c.items| => ApplyToItem(u, c.items[i])))
  }

  /** Every checklist with the update applied to each of its items. */
  function UpdateAll(checklists: map<string, Checklist>, u: ItemUpdate): (r: map<string, Checklist>)
    ensures r.Keys == checklists.Keys
    ensures forall k :: k in checklists ==> r[k] == UpdateChecklist(checklists[k], u)
  {
    map k | k in checklists :: UpdateChecklist(checklists[k], u)
  }

  /**
   * The nested loop `for checklist in self.checklists.values(): for item in
   * checklist.items: ...` shared by `reset_all`, `update_verification`,
   * `inject_flight_plan` and `clear_flight_plan_data`.
   */
  method UpdateItems(checklists: map<string, Checklist>, u: ItemUpdate) returns (r: map<string, Checklist>)
    ensures r == UpdateAll(checklists, u)
  {
    r := checklists;
    var pending := checklists.Keys;
    while pending != {}
      invariant pending <= checklists.Keys && r.Keys == checklists.Keys
      invariant forall k :: k in checklists ==>
        r[k] == if k in pending then checklists[k] else UpdateChecklist(checklists[k], u)
      decreases pending
    {
      var key :| key in pending;
      var items := checklists[key].items;
      var updated: seq<ChecklistItem> := [];
      var j := 0;
      while j < |items|
        invariant 0 <= j <= |items| && |updated| == j
        invariant forall i :: 0 <= i < j ==> updated[i] == ApplyToItem(u, items[i])
      {
        updated := updated + [ApplyToItem(u, items[j])];
        j := j + 1;
      }
      assert checklists[key].(items := updated) == UpdateChecklist(checklists[key], u);
      r := r[key := checklists[key].(items := updated)];
      pending := pending - {key};
    }
  }

  // ---------------------------------------------------------------------
  // Properties of the updates

  /** Verification touches nothing but `verified`, and repeating it changes nothing. */
  lemma VerifyOnlySetsVerified(checklists: map<string, Checklist>, variable: string, value: real)
    ensures var r := UpdateAll(checklists, Verify(variable, value));
      forall k, i :: k in checklists && 0 <= i < |checklists[k].items| ==>
        r[k].items[i] == checklists[k].items[i].(verified := r[k].items[i].verified)
    ensures UpdateAll(UpdateAll(checklists, Verify(variable, value)), Verify(variable, value)) ==
      UpdateAll(checklists, Verify(variable, value))
  {
    var once := UpdateAll(checklists, Verify(variable, value));
    var twice := UpdateAll(once, Verify(variable, value));
    forall k | k in checklists
      ensures twice[k] == once[k]
    {
      assert twice[k].items == once[k].items;
    }
  }

  /** Injecting the same data twice is the same as injecting it once. */
  lemma InjectIdempotent(checklists: map<string, Checklist>, data: map<string, Injection>)
    ensures UpdateAll(UpdateAll(checklists, Inject(data)), Inject(data)) == UpdateAll(checklists, Inject(data))
  {
    var once := UpdateAll(checklists, Inject(data));
    var twice := UpdateAll(once, Inject(data));
    forall k | k in checklists
      ensures twice[k] == once[k]
    {
      assert twice[k].items == once[k].items;
    }
  }

  /** Clearing after an injection gives what clearing alone gives: injection is undone. */
  lemma ClearUndoesInject(checklists: map<string, Checklist>, data: map<string, Injection>)
    ensures UpdateAll(UpdateAll(checklists, Inject(data)), ClearPlan) == UpdateAll(checklists, ClearPlan)
  {
    var injected := UpdateAll(UpdateAll(checklists, Inject(data)), ClearPlan);
    var cleared := UpdateAll(checklists, ClearPlan);
    forall k | k in checklists
      ensures injected[k] == cleared[k]
    {
      assert injected[k].items == cleared[k].items;
    }
  }

  /** Resetting erases the effect of any earlier update. */
  lemma ResetAfterUpdate(checklists: map<string, Checklist>, u: ItemUpdate)
    ensures UpdateAll(UpdateAll(checklists, u), ResetState) == UpdateAll(checklists, ResetState)
  {
    var after := UpdateAll(UpdateAll(checklists, u), ResetState);
    var direct := UpdateAll(checklists, ResetState);
    forall k | k in checklists
      ensures after[k] == direct[k]
    {
      assert after[k].items == direct[k].items;
    }
  }

  /** After a reset every item of every checklist is in its loaded state. */
  lemma ResetMakesPristine(checklists: map<string, Checklist>)
    ensures var r := UpdateAll(checklists, ResetState);
      forall k, i :: k in checklists && 0 <= i < |checklists[k].items| ==>
        r[k].items[i].Pristine() && r[k].items[i].SameDefinition(checklists[k].items[i])
  {
  }

  // ---------------------------------------------------------------------
  // Check, uncheck, toggle

  datatype Mark = Check | Uncheck | Toggle

  function Marked(m: Mark, checked: bool): bool {
    match m
    case Check => true
    case Uncheck => false
    case Toggle => !checked
  }

  /**
   * `check_item`/`uncheck_item`/`toggle_item` on values: None when the
   * checklist or the item id is missing, else the checklists with `checked`
   * of the first item with that id set.
   */
  function MarkItem(checklists: map<string, Checklist>, phaseId: string, itemId: string, m: Mark)
    : (r: Option<map<string, Checklist>>)
    ensures r.None? <==> phaseId !in checklists || checklists[phaseId].GetItem(itemId).None?
  {
    if phaseId !in checklists then None
    else
      var c := checklists[phaseId];
      match ItemIndex(c.items, itemId)
      case None => None
      case Some(i) =>
        Some(checklists[phaseId := c.(items := c.items[i := c.items[i].(checked := Marked(m, c.items[i].checked))])])
  }

  /**
   * A successful mark changes only `checked`, and only on the first item
   * with that id in that checklist: check sets it, uncheck clears it,
   * toggle negates it.
   */
  lemma MarkChangesOnlyChecked(checklists: map<string, Checklist>, phaseId: string, itemId: string, m: Mark)
    requires MarkItem(checklists, phaseId, itemId, m).Some?
    ensures var r := MarkItem(checklists, phaseId, itemId, m).value;
      var old_items, new_items := checklists[phaseId].items, r[phaseId].items;
      var i := ItemIndex(old_items, itemId).value;
      r.Keys == checklists.Keys &&
      (forall k :: k in checklists && k != phaseId ==> r[k] == checklists[k]) &&
      r[phaseId].id == checklists[phaseId].id && |new_items| == |old_items| &&
      (forall j :: 0 <= j < |old_items| && j != i ==> new_items[j] == old_items[j]) &&
      old_items[i].id == itemId && new_items[i] == old_items[i].(checked := new_items[i].checked) &&
      new_items[i].checked == Marked(m, old_items[i].checked)
  {
  }

  /**
   * `Checklist.is_complete` under a successful mark: an empty checklist is
   * complete; after an uncheck the checklist is incomplete; after a check
   * or a toggle it is complete iff the marked item ends up checked and
   * every other item already was.
   */
  lemma MarkedCompletion(checklists: map<string, Checklist>, phaseId: string, itemId: string, m: Mark)
    requires MarkItem(checklists, phaseId, itemId, m).Some?
    ensures var r := MarkItem(checklists, phaseId, itemId, m).value;
      var old_items := checklists[phaseId].items;
      var i := ItemIndex(old_items, itemId).value;
      (m == Uncheck ==> !r[phaseId].IsComplete()) &&
      (r[phaseId].IsComplete() <==>
        Marked(m, old_items[i].checked) && forall j :: 0 <= j < |old_items| && j != i ==> old_items[j].checked) &&
      (m == Check && checklists[phaseId].IsComplete() ==> r[phaseId].IsComplete())
  {
    MarkChangesOnlyChecked(checklists, phaseId, itemId, m);
  }

  /** An empty checklist is complete; one with an unchecked item is not. */
  lemma CompletionWitness(c: Checklist, i: nat)
    ensures c.items == [] ==> c.IsComplete()
    ensures i < |c.items| && !c.items[i].checked ==> !c.IsComplete()
  {
  }

  /** The first index of an id depends only on the items' ids. */
  lemma ItemIndexSameIds(a: seq<ChecklistItem>, b: seq<ChecklistItem>, itemId: string)
    requires |a| == |b| && forall j :: 0 <= j < |a| ==> a[j].id == b[j].id
    ensures ItemIndex(a, itemId) == ItemIndex(b, itemId)
  {
  }

  /** A checklist with the `checked` flag of item `i` toggled. */
  function ToggledAt(c: Checklist, i: nat): (r: Checklist)
    requires i < |c.items|
    ensures |r.items| == |c.items| && r.items[i].checked == !c.items[i].checked
    ensures forall j :: 0 <= j < |c.items| ==> r.items[j].id == c.items[j].id
  {
    c.(items := c.items[i := c.items[i].(checked := !c.items[i].checked)])
  }

  lemma ToggleAtIndex(checklists: map<string, Checklist>, phaseId: string, itemId: string, i: nat)
    requires phaseId in checklists && ItemIndex(checklists[phaseId].items, itemId) == Some(i)
    ensures MarkItem(checklists, phaseId, itemId, Toggle) == Some(checklists[phaseId := ToggledAt(checklists[phaseId], i)])
  {
  }

  /** Toggling twice restores the checklists. */
  lemma ToggleTwice(checklists: map<string, Checklist>, phaseId: string, itemId: string)
    requires MarkItem(checklists, phaseId, itemId, Toggle).Some?
    ensures MarkItem(MarkItem(checklists, phaseId, itemId, Toggle).value, phaseId, itemId, Toggle) == Some(checklists)
  {
    var c := checklists[phaseId];
    var i := ItemIndex(c.items, itemId).value;
    var c1 := ToggledAt(c, i);
    ToggleAtIndex(checklists, phaseId, itemId, i);
    var once := checklists[phaseId := c1];
    ItemIndexSameIds(c.items, c1.items, itemId);
    ToggleAtIndex(once, phaseId, itemId, i);
    assert ToggledAt(c1, i) == c;
    assert once[phaseId := c] == checklists;
  }

  // ---------------------------------------------------------------------
  // Phase history

  /** The history after `set_phase` from `current` to `next`. */
  function RecordVisit(history: seq<Phase>, current: Phase, next: Phase, record: bool): seq<Phase> {
    if current != next && record && current !in history then history + [current] else history
  }

  /** Recording a visit never introduces a repeated phase. */
  lemma RecordVisitKeepsDistinct(history: seq<Phase>, current: Phase, next: Phase, record: bool)
    requires NoDuplicates(history)
    ensures NoDuplicates(RecordVisit(history, current, next, record))
  {
  }

  /**
   * The history only grows, by at most the phase being left, and holds
   * afterwards exactly the phases it held before plus, on a recorded change
   * of phase, the phase being left.
   */
  lemma RecordVisitContents(history: seq<Phase>, current: Phase, next: Phase, record: bool)
    ensures var r := RecordVisit(history, current, next, record);
      (r == history || r == history + [current]) &&
      forall p :: p in r <==> p in history || (record && current != next && p == current)
  {
  }

  /** The phase mode. */
  datatype Mode = Auto | Manual

  function ModeValue(m: Mode): string {
    match m
    case Auto => "auto"
    case Manual => "manual"
  }

  /** What `get_state_dict` reports. */
  datatype StateView = StateView(
    phase: string,
    phaseDisplay: string,
    phaseMode: string,
    checklist: Option<Checklist>,
    phaseHistory: seq<string>)

  /** `inject_flight_plan`'s table: item id -> the SimBrief value it shows. */
  function InjectionData(plan: FlightPlan, trimRaw: string, trimDisplay: string): (r: map<string, Injection>)
    ensures r.Keys == {"fuel", "baro_ref", "baro_ref_ldg", "pitch_trim"}
    ensures r["fuel"].present <==> plan.fuelBlock != 0
    ensures r["baro_ref"].present <==> plan.originQnh != 0
    ensures r["baro_ref_ldg"].present <==> plan.destQnh != 0
    ensures r["pitch_trim"].present <==> plan.trimPercent != 0.0
  {
    map[
      "fuel" := Injection(IntToString(plan.fuelBlock), "fuel", IntGrouped(plan.fuelBlock) + " ", plan.fuelBlock != 0),
      "baro_ref" := Injection(IntToString(plan.originQnh), "baro", IntToString(plan.originQnh) + " ", plan.originQnh != 0),
      "baro_ref_ldg" := Injection(IntToString(plan.destQnh), "baro", IntToString(plan.destQnh) + " ", plan.destQnh != 0),
      "pitch_trim" := Injection(trimRaw, "trim", trimDisplay, plan.trimPercent != 0.0)
    ]
  }

  lemma PhaseValueInjective(p: Phase, q: Phase)
    ensures PhaseValue(p) == PhaseValue(q) ==> p == q
  {
    if PhaseValue(p) == PhaseValue(q) {
      assert ParsePhase(PhaseValue(p)) == Some(p);
    }
  }

  class ChecklistManager {
    var checklists: map<string, Checklist>
    var currentPhase: Phase
    var phaseMode: Mode
    var phaseHistory: seq<Phase>
    var trainingMode: bool

    /** The history never records a phase twice. */
    ghost predicate Valid()
      reads this
    {
      NoDuplicates(phaseHistory)
    }

    /** A manager over the given loaded checklists. */
    constructor(training: bool, loaded: map<string, Checklist>)
      ensures Valid()
      ensures checklists == loaded && trainingMode == training
      ensures currentPhase == CockpitPreparation && phaseMode == Auto && phaseHistory == []
    {
      checklists := loaded;
      currentPhase := CockpitPreparation;
      phaseMode := Auto;
      phaseHistory := [];
      trainingMode := training;
    }

    /**
     * `set_training_mode`: a change of mode swaps in the other checklist set
     * (`loaded`) and starts over at the first phase; the same mode changes nothing.
     */
    method SetTrainingMode(enabled: bool, loaded: map<string, Checklist>)
      requires Valid()
      modifies this
      ensures Valid()
      ensures old(trainingMode) == enabled ==>
        checklists == old(checklists) && currentPhase == old(currentPhase) &&
        phaseMode == old(phaseMode) && phaseHistory == old(phaseHistory) && trainingMode == enabled
      ensures old(trainingMode) != enabled ==>
        trainingMode == enabled && checklists == loaded && currentPhase == CockpitPreparation &&
        phaseMode == Auto && phaseHistory == []
    {
      if trainingMode != enabled {
        trainingMode := enabled;
        checklists := loaded;
        currentPhase := CockpitPreparation;
        phaseMode := Auto;
        phaseHistory := [];
      }
    }

    /** `get_checklist`. */
    function GetChecklist(phaseId: string): (r: Option<Checklist>)
      reads this
      ensures r.Some? <==> phaseId in checklists
      ensures r.Some? ==> r.value == checklists[phaseId]
    {
      if phaseId in checklists then Some(checklists[phaseId]) else None
    }

    /** `get_current_checklist`: the checklist keyed by the current phase's value. */
    function GetCurrentChecklist(): (r: Option<Checklist>)
      reads this
      ensures r == GetChecklist(PhaseValue(currentPhase))
    {
      GetChecklist(PhaseValue(currentPhase))
    }

    /**
     * `get_state_dict`: the current phase with its display name, the mode,
     * the current checklist when it is loaded, and the history as phase
     * values in visiting order, each at most once. Every reported value
     * parses back to the phase it names.
     */
    function GetStateDict(): (r: StateView)
      reads this
      ensures Valid() ==> NoDuplicates(r.phaseHistory)
      ensures |r.phaseHistory| == |phaseHistory|
      ensures forall i :: 0 <= i < |phaseHistory| ==> r.phaseHistory[i] == PhaseValue(phaseHistory[i])
      ensures forall i :: 0 <= i < |r.phaseHistory| ==> ParsePhase(r.phaseHistory[i]) == Some(phaseHistory[i])
      ensures r.phase == PhaseValue(currentPhase) && ParsePhase(r.phase) == Some(currentPhase)
      ensures r.phaseDisplay == PhaseDisplay(currentPhase) && r.phaseMode == ModeValue(phaseMode)
      ensures r.checklist.Some? <==> PhaseValue(currentPhase) in checklists
      ensures r.checklist.Some? ==> r.checklist.value == checklists[PhaseValue(currentPhase)]
    {
      var names := seq(|phaseHistory|, i requires 0 <= i < |phaseHistory| reads this => PhaseValue(phaseHistory[i]));
      assert forall i, j :: 0 <= i < j < |names| ==> names[i] == names[j] ==> phaseHistory[i] == phaseHistory[j] by {
        forall i, j | 0 <= i < j < |names|
          ensures names[i] == names[j] ==> phaseHistory[i] == phaseHistory[j]
        {
          PhaseValueInjective(phaseHistory[i], phaseHistory[j]);
        }
      }
      StateView(PhaseValue(currentPhase), PhaseDisplay(currentPhase), ModeValue(phaseMode),
                GetCurrentChecklist(), names)
    }

    /**
     * `set_phase`: a different phase becomes current, and the old one is
     * appended to the history when recording and not yet recorded.
     */
    method SetPhase(phase: Phase, record: bool)
      requires Valid()
      modifies this`currentPhase, this`phaseHistory
      ensures Valid()
      ensures currentPhase == phase
      ensures phaseHistory == RecordVisit(old(phaseHistory), old(currentPhase), phase, record)
    {
      RecordVisitKeepsDistinct(phaseHistory, currentPhase, phase, record);
      if currentPhase != phase {
        if record && currentPhase !in phaseHistory {
          phaseHistory := phaseHistory + [currentPhase];
        }
        currentPhase := phase;
      }
    }

    /** `next_phase`: step forward along the checklist phases, recording history. */
    method NextPhase() returns (ok: bool)
      requires Valid()
      modifies this`currentPhase, this`phaseHistory, this`phaseMode
      ensures Valid()
      ensures ok <==> NextChecklistPhase(old(currentPhase)).Some?
      ensures ok ==> (currentPhase == NextChecklistPhase(old(currentPhase)).value && phaseMode == Manual &&
        phaseHistory == RecordVisit(old(phaseHistory), old(currentPhase), currentPhase, true))
      ensures !ok ==> (currentPhase == old(currentPhase) && phaseMode == old(phaseMode) &&
        phaseHistory == old(phaseHistory))
    {
      var next := NextChecklistPhase(currentPhase);
      if next.Some? {
        SetPhase(next.value, true);
        phaseMode := Manual;
        return true;
      }
      return false;
    }

    /** `prev_phase`: step back along the checklist phases, history untouched. */
    method PrevPhase() returns (ok: bool)
      requires Valid()
      modifies this`currentPhase, this`phaseHistory, this`phaseMode
      ensures Valid()
      ensures ok <==> PrevChecklistPhase(old(currentPhase)).Some?
      ensures ok ==> currentPhase == PrevChecklistPhase(old(currentPhase)).value && phaseMode == Manual
      ensures !ok ==> currentPhase == old(currentPhase) && phaseMode == old(phaseMode)
      ensures phaseHistory == old(phaseHistory)
    {
      var prev := PrevChecklistPhase(currentPhase);
      if prev.Some? {
        SetPhase(prev.value, false);
        phaseMode := Manual;
        return true;
      }
      return false;
    }

    /** `check_item`, `uncheck_item` and `toggle_item`. */
    method MarkItemInPlace(phaseId: string, itemId: string, m: Mark) returns (ok: bool)
      modifies this`checklists
      ensures ok <==> MarkItem(old(checklists), phaseId, itemId, m).Some?
      ensures checklists == if ok then MarkItem(old(checklists), phaseId, itemId, m).value else old(checklists)
    {
      var marked := MarkItem(checklists, phaseId, itemId, m);
      if marked.Some? {
        checklists := marked.value;
        return true;
      }
      return false;
    }

    method CheckItem(phaseId: string, itemId: string) returns (ok: bool)
      modifies this`checklists
      ensures ok <==> MarkItem(old(checklists), phaseId, itemId, Check).Some?
      ensures checklists == if ok then MarkItem(old(checklists), phaseId, itemId, Check).value else old(checklists)
    {
      ok := MarkItemInPlace(phaseId, itemId, Check);
    }

    method UncheckItem(phaseId: string, itemId: string) returns (ok: bool)
      modifies this`checklists
      ensures ok <==> MarkItem(old(checklists), phaseId, itemId, Uncheck).Some?
      ensures checklists == if ok then MarkItem(old(checklists), phaseId, itemId, Uncheck).value else old(checklists)
    {
      ok := MarkItemInPlace(phaseId, itemId, Uncheck);
    }

    method ToggleItem(phaseId: string, itemId: string) returns (ok: bool)
      modifies this`checklists
      ensures ok <==> MarkItem(old(checklists), phaseId, itemId, Toggle).Some?
      ensures checklists == if ok then MarkItem(old(checklists), phaseId, itemId, Toggle).value else old(checklists)
    {
      ok := MarkItemInPlace(phaseId, itemId, Toggle);
    }

    /** `reset_all`: every item reset, first phase, automatic mode, empty history. */
    method ResetAll()
      modifies this`checklists, this`currentPhase, this`phaseMode, this`phaseHistory
      ensures Valid()
      ensures checklists == UpdateAll(old(checklists), ResetState)
      ensures currentPhase == CockpitPreparation && phaseMode == Auto && phaseHistory == []
    {
      checklists := UpdateItems(checklists, ResetState);
      currentPhase := CockpitPreparation;
      phaseMode := Auto;
      phaseHistory := [];
    }

    /** `update_verification`: evaluate every item watching `variable` against `value`. */
    method UpdateVerification(variable: string, value: real)
      modifies this`checklists
      ensures checklists == UpdateAll(old(checklists), Verify(variable, value))
    {
      checklists := UpdateItems(checklists, Verify(variable, value));
    }

    /**
     * `inject_flight_plan`: no plan changes nothing; otherwise each item
     * with a placeholder and a present SimBrief value shows that value. The
     * float texts of the trim (`str` and `:.1f`) are given.
     */
    method InjectFlightPlan(plan: Option<FlightPlan>, trimRaw: string, trimDisplay: string)
      modifies this`checklists
      ensures plan.None? ==> checklists == old(checklists)
      ensures plan.Some? ==>
        checklists == UpdateAll(old(checklists), Inject(InjectionData(plan.value, trimRaw, trimDisplay)))
    {
      if plan.None? {
        return;
      }
      checklists := UpdateItems(checklists, Inject(InjectionData(plan.value, trimRaw, trimDisplay)));
    }

    /** `clear_flight_plan_data`: every response back to its template, SimBrief fields cleared. */
    method ClearFlightPlanData()
      modifies this`checklists
      ensures checklists == UpdateAll(old(checklists), ClearPlan)
    {
      checklists := UpdateItems(checklists, ClearPlan);
    }
  }
}
