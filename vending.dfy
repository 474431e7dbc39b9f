/** The selection and dispense flow of src/components/interfaces/VendingMachine/index.tsx:
    a slot is chosen on the machine or through the keypad, and dispensing opens the
    chosen project after a delay. */
module VendingMachine {
  import opened Wrappers
  import Seqs
  import Catalog
  import VendingKeypad

  /** The first project of `catalog` stocked in slot `code`. */
  function FindBySlot(catalog: seq<Catalog.Project>, code: string): (r: Option<Catalog.Project>)
    ensures r.Some? ==> r.value in catalog && r.value.mappings.vendingMachine.slot == code
    ensures r.None? <==> forall k :: 0 <= k < |catalog| ==> catalog[k].mappings.vendingMachine.slot != code
  {
    Seqs.Find(catalog, (p: Catalog.Project) => p.mappings.vendingMachine.slot == code)
  }

  /** Every keypad code names exactly one slot of the shipped catalog, in catalog order. */
  lemma {:induction false} KeypadCodeSelects(k: nat)
    requires k < |VendingKeypad.ValidCodes|
    ensures FindBySlot(Catalog.Projects, VendingKeypad.ValidCodes[k]) == Some(Catalog.Projects[k])
  {
    Catalog.MappingsInOrder();
    Catalog.MappingsDistinct();
    var code := VendingKeypad.ValidCodes[k];
    assert Catalog.Projects[k].mappings.vendingMachine.slot == code;
    Seqs.FindUnique(Catalog.Projects, (p: Catalog.Project) => p.mappings.vendingMachine.slot == code, k);
  }

  /** A code that is not a keypad code selects nothing. */
  lemma NonCodeSelectsNothing(code: string)
    requires code !in VendingKeypad.ValidCodes
    ensures FindBySlot(Catalog.Projects, code) == None
  {
    Catalog.MappingsInOrder();
  }

  /** The dispense button of the selected-product panel. */
  datatype Button = Button(disabled: bool, caption: string)

  /** Disabled while dispensing or for a project that is not live; the label says why. */
  function DispenseButton(isDispensing: bool, p: Catalog.Project): (b: Button)
    ensures b.disabled <==> isDispensing || p.status != Catalog.Live
    ensures b.caption == "DISPENSE" <==> !b.disabled
    ensures b.caption == "COMING SOON" <==> !isDispensing && p.status != Catalog.Live
    ensures b.caption == "DISPENSING..." <==> isDispensing
  {
    Button(isDispensing || p.status != Catalog.Live,
           if isDispensing then "DISPENSING..."
           else if p.status == Catalog.Live then "DISPENSE"
           else "COMING SOON")
  }

  class Machine {
    var selectedSlot: Option<string>
    var selectedProject: Option<Catalog.Project>
    var isDispensing: bool
    /** The dispense timeouts scheduled and not yet fired, in firing order, each with
        the project it captured when the button was pressed. */
    var pending: seq<Catalog.Project>

    /** The slot and the project are set and cleared together. */
    ghost predicate Valid()
      reads this
    {
      selectedSlot.Some? <==> selectedProject.Some?
    }

    constructor ()
      ensures Valid()
      ensures selectedSlot == None && selectedProject == None && !isDispensing && pending == []
    {
      selectedSlot := None;
      selectedProject := None;
      isDispensing := false;
      pending := [];
    }

    /** `handleSlotSelect(slot, project)`. */
    method HandleSlotSelect(slot: string, project: Catalog.Project)
      modifies this
      ensures Valid()
      ensures selectedSlot == Some(slot) && selectedProject == Some(project)
      ensures isDispensing == old(isDispensing) && pending == old(pending)
    {
      selectedSlot := Some(slot);
      selectedProject := Some(project);
    }

    /** `handleKeypadSelect(code)`: the project stocked in that slot, if any, becomes
        the selection; an unknown code changes nothing. */
    method HandleKeypadSelect(code: string)
      requires Valid()
      modifies this
      ensures Valid()
      ensures FindBySlot(Catalog.Projects, code).Some? ==>
        selectedSlot == Some(code) && selectedProject == FindBySlot(Catalog.Projects, code)
      ensures FindBySlot(Catalog.Projects, code).None? ==>
        selectedSlot == old(selectedSlot) && selectedProject == old(selectedProject)
      ensures selectedProject.Some? && old(selectedProject) != selectedProject ==>
        selectedSlot == Some(selectedProject.value.mappings.vendingMachine.slot)
      ensures isDispensing == old(isDispensing) && pending == old(pending)
    {
      var project := FindBySlot(Catalog.Projects, code);
      if project.Some? {
        HandleSlotSelect(code, project.value);
      }
    }

    /** `handleDispense()`: without a selection nothing happens; otherwise dispensing
        starts and a completion capturing the current project is scheduled. */
    method HandleDispense()
      modifies this
      ensures selectedProject.None? ==> isDispensing == old(isDispensing) && pending == old(pending)
      ensures selectedProject.Some? ==> isDispensing && pending == old(pending) + [selectedProject.value]
      ensures selectedSlot == old(selectedSlot) && selectedProject == old(selectedProject)
    {
      if selectedProject.None? {
        return;
      }
      isDispensing := true;
      pending := pending + [selectedProject.value];
    }

    /** A press on the dispense button, which is shown only for a selection: a
        disabled button delivers no click, an enabled one runs `handleDispense`. So
        dispensing starts only for a live selection while the machine is idle. */
    method PressDispense()
      modifies this
      ensures var starts := old(selectedProject).Some? && !DispenseButton(old(isDispensing), old(selectedProject).value).disabled;
        && (starts <==> old(selectedProject).Some? && old(selectedProject).value.status == Catalog.Live && !old(isDispensing))
        && (starts ==> isDispensing && pending == old(pending) + [old(selectedProject).value])
        && (!starts ==> isDispensing == old(isDispensing) && pending == old(pending))
      ensures (forall k :: 0 <= k < |old(pending)| ==> old(pending)[k].status == Catalog.Live) ==>
        forall k :: 0 <= k < |pending| ==> pending[k].status == Catalog.Live
      ensures selectedSlot == old(selectedSlot) && selectedProject == old(selectedProject)
    {
      if selectedProject.Some? && !DispenseButton(isDispensing, selectedProject.value).disabled {
        HandleDispense();
      }
    }

    /** The earliest dispense timeout fires: dispensing ends, the captured project's url
        is launched when it is live, and both selections are cleared. */
    method DispenseComplete() returns (launched: Option<string>)
      requires pending != []
      modifies this
      ensures Valid()
      ensures launched.Some? <==> old(pending)[0].status == Catalog.Live
      ensures launched.Some? ==> launched.value == old(pending)[0].url
      ensures !isDispensing && selectedSlot == None && selectedProject == None
      ensures pending == old(pending)[1..]
    {
      var p := pending[0];
      isDispensing := false;
      launched := if p.status == Catalog.Live then Some(p.url) else None;
      selectedSlot := None;
      selectedProject := None;
      pending := pending[1..];
    }
  }

  /** Keypad `A1`, dispense, completion: LokiTunes opens and the machine is idle. */
  method DispenseLive() returns (launched: Option<string>, idle: bool)
    ensures launched == Some("https://lokitunes.art") && idle
  {
    var m := new Machine();
    KeypadCodeSelects(0);
    m.HandleKeypadSelect("A1");
    m.PressDispense();
    launched := m.DispenseComplete();
    idle := !m.isDispensing && m.selectedProject == None && m.pending == [];
  }

  /** Keypad `C2` selects the coming-soon podcast: its button is disabled, so a press
      starts no dispense and schedules nothing. */
  method DispenseComingSoon() returns (button: Button, dispensing: bool, scheduled: nat)
    ensures button == Button(true, "COMING SOON")
    ensures !dispensing && scheduled == 0
  {
    var m := new Machine();
    KeypadCodeSelects(5);
    m.HandleKeypadSelect("C2");
    button := DispenseButton(m.isDispensing, m.selectedProject.value);
    m.PressDispense();
    dispensing := m.isDispensing;
    scheduled := |m.pending|;
  }

  /** Dispensing with nothing selected does nothing. */
  method DispenseNothing() returns (dispensing: bool, scheduled: nat)
    ensures !dispensing && scheduled == 0
  {
    var m := new Machine();
    m.HandleDispense();
    dispensing := m.isDispensing;
    scheduled := |m.pending|;
  }

  /** A product chosen while dispensing is lost: the completion opens the project that
      was dispensed and clears the newer choice. */
  method ChooseWhileDispensing() returns (launched: Option<string>, selected: Option<Catalog.Project>)
    ensures launched == Some("https://lokitunes.art") && selected == None
  {
    var m := new Machine();
    KeypadCodeSelects(0);
    m.HandleKeypadSelect("A1");
    m.PressDispense();
    KeypadCodeSelects(2);
    m.HandleKeypadSelect("B1");
    launched := m.DispenseComplete();
    selected := m.selectedProject;
  }
}
