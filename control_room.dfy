/** The console room of src/components/interfaces/ControlRoom/index.tsx: one panel per
    catalog project and a status line that cycles through four messages on an
    interval. The clock line is not part of the model. */
module ControlRoom {
  import Catalog

  /** The messages of the status line, in cycling order. */
  const Statuses: seq<string> := ["NOMINAL", "ALL SYSTEMS GO", "READY", "STANDING BY"]

  class StatusLine {
    /** The interval callback's captured counter. */
    var index: nat
    var systemStatus: string

    /** The counter stays in range and the line always shows the message it names. */
    ghost predicate Valid()
      reads this
    {
      index < |Statuses| && systemStatus == Statuses[index]
    }

    /** The line starts at `NOMINAL`, the first message. */
    constructor ()
      ensures Valid() && index == 0 && systemStatus == "NOMINAL"
    {
      index := 0;
      systemStatus := "NOMINAL";
    }

    /** One interval tick: the next message, wrapping after the last. */
    method Tick()
      requires Valid()
      modifies this
      ensures Valid()
      ensures index == (old(index) + 1) % |Statuses|
    {
      index := (index + 1) % |Statuses|;
      systemStatus := Statuses[index];
    }
  }

  /** After `n` ticks of a fresh status line the message is the one `n` places along
      the cycle. */
  method StatusAfter(n: nat) returns (status: string)
    ensures status == Statuses[n % |Statuses|]
  {
    var line := new StatusLine();
    var t := 0;
    while t < n
      invariant t <= n
      invariant line.Valid() && line.index == t % |Statuses|
    {
      line.Tick();
      t := t + 1;
    }
    status := line.systemStatus;
  }

  /** Four ticks bring the line back to `NOMINAL`; one tick gives the second message. */
  method FullCycle() returns (one: string, four: string)
    ensures one == "ALL SYSTEMS GO" && four == "NOMINAL"
  {
    one := StatusAfter(1);
    four := StatusAfter(4);
  }

  /** A rendered panel: its React key, its position in the grid and its project. */
  datatype PanelSlot = PanelSlot(key: string, index: nat, project: Catalog.Project)

  /** `projects.map`: one panel per project, in catalog order. */
  function PanelGrid(catalog: seq<Catalog.Project>): (r: seq<PanelSlot>)
    ensures |r| == |catalog|
    ensures forall k :: 0 <= k < |r| ==> r[k] == PanelSlot(catalog[k].id, k, catalog[k])
  {
    seq(|catalog|, k requires 0 <= k < |catalog| => PanelSlot(catalog[k].id, k, catalog[k]))
  }

  /** With the shipped catalog the six panel keys are distinct, so each panel keeps
      its own state, and every project has its panel. */
  lemma ShippedPanelsDistinct()
    ensures |PanelGrid(Catalog.Projects)| == 6
    ensures forall j, k :: 0 <= j < k < 6 ==> PanelGrid(Catalog.Projects)[j].key != PanelGrid(Catalog.Projects)[k].key
    ensures forall p :: p in Catalog.Projects ==> exists k :: 0 <= k < 6 && PanelGrid(Catalog.Projects)[k].project == p
  {
    Catalog.ProjectIdsDistinct();
    forall p | p in Catalog.Projects
      ensures exists k :: 0 <= k < 6 && PanelGrid(Catalog.Projects)[k].project == p
    {
      var k :| 0 <= k < 6 && Catalog.Projects[k] == p;
      assert PanelGrid(Catalog.Projects)[k].project == p;
    }
  }
}
