/** The project catalog of src/config/projects.ts: six external destinations, each
    with one presentation mapping per scene, and the lookup by id. */
module Catalog {
  import opened Wrappers
  import Seqs

  datatype Status = Live | ComingSoon
  datatype Position = Position(x: int, y: int)
  datatype BodyPart = Ear | Brain | Mouth | Hands | Eye | Heart
  datatype IconType = MediaPlayer | Terminal | Folder | Sticky | Screensaver | Hidden
  datatype PanelType = Oscilloscope | Monitor | Typewriter | Clipboard | Radar | TapeRecorder
  datatype ProductType = Cassette | PillBottle | Spellbook | Coin | Viewmaster | Vhs

  datatype Theme = Theme(primaryColor: string, icon: string)
  datatype NeuralMapping = NeuralMapping(position: Position, connections: seq<string>)
  datatype RetroOSMapping = RetroOSMapping(iconType: IconType, filename: string)
  datatype VendingMapping = VendingMapping(slot: string, productType: ProductType)

  /** The per-scene mappings. The radio frequency is kept in tenths of a megahertz
      (88.1 is 881), which preserves the equalities and the order of the values. */
  datatype Mappings = Mappings(
    neuralMap: NeuralMapping,
    bodyPart: BodyPart,
    retroOS: RetroOSMapping,
    frequencyTenths: nat,
    panelType: PanelType,
    vendingMachine: VendingMapping)

  datatype Project = Project(
    id: string,
    name: string,
    url: string,
    description: string,
    status: Status,
    theme: Theme,
    mappings: Mappings)

  const LokiTunes := Project("lokitunes", "LokiTunes", "https://lokitunes.art",
    "Music app with 3D orbs—browse and rate pre-samples", Live,
    Theme("#8B5CF6", "/icons/lokitunes.svg"),
    Mappings(NeuralMapping(Position(-200, 0), ["vocapp", "crym"]), Ear,
             RetroOSMapping(MediaPlayer, "LokiTunes.exe"), 881, Oscilloscope,
             VendingMapping("A1", Cassette)))
  const MatrixArena := Project("matrixarena", "Matrix Arena", "https://matrixarena.pro",
    "LLM debate arena with red pill / blue pill aesthetic", Live,
    Theme("#22C55E", "/icons/matrixarena.svg"),
    Mappings(NeuralMapping(Position(200, -100), ["vocapp"]), Brain,
             RetroOSMapping(Terminal, "MATRIX.cmd"), 925, Monitor,
             VendingMapping("A2", PillBottle)))
  const VocApp := Project("vocapp", "VocApp", "https://vocapp.xyz",
    "AI-powered vocabulary learning with visual grids", Live,
    Theme("#3B82F6", "/icons/vocapp.svg"),
    Mappings(NeuralMapping(Position(0, 150), ["lokitunes", "matrixarena"]), Mouth,
             RetroOSMapping(Folder, "Language_DB"), 963, Typewriter,
             VendingMapping("B1", Spellbook)))
  const BountyHunter := Project("bountyhunter", "BountyHunter", "https://bountyhunter.xyz",
    "Task exchange for friends and couples—earn rewards", Live,
    Theme("#F59E0B", "/icons/bountyhunter.svg"),
    Mappings(NeuralMapping(Position(-150, -150), ["crym"]), Hands,
             RetroOSMapping(Sticky, "Bounties.txt"), 1017, Clipboard,
             VendingMapping("B2", Coin)))
  const Crym := Project("crym", "Crym.space", "https://crym.space",
    "3D NFT gallery—walk through rooms and portals", Live,
    Theme("#EC4899", "/icons/crym.svg"),
    Mappings(NeuralMapping(Position(150, 100), ["lokitunes", "bountyhunter"]), Eye,
             RetroOSMapping(Screensaver, "Gallery3D.scr"), 1059, Radar,
             VendingMapping("C1", Viewmaster)))
  const Podcast := Project("podcast", "Psychoanalysis Podcast", "#",
    "Audio series exploring psychoanalysis sessions", ComingSoon,
    Theme("#6366F1", "/icons/podcast.svg"),
    Mappings(NeuralMapping(Position(0, -200), ["matrixarena"]), Heart,
             RetroOSMapping(Hidden, "Subconscious"), 1080, TapeRecorder,
             VendingMapping("C2", Vhs)))

  /** The catalog in its declared order. */
  const Projects: seq<Project> := [LokiTunes, MatrixArena, VocApp, BountyHunter, Crym, Podcast]

  /** The ids of the catalog, in catalog order. */
  const ProjectIds: seq<string> := ["lokitunes", "matrixarena", "vocapp", "bountyhunter", "crym", "podcast"]

  /** The first project of `catalog` with the given id (`projects.find`). */
  function FindById(catalog: seq<Project>, id: string): (r: Option<Project>)
    ensures r.Some? ==> r.value.id == id && r.value in catalog
    ensures r.None? <==> forall k :: 0 <= k < |catalog| ==> catalog[k].id != id
  {
    if catalog == [] then None
    else if catalog[0].id == id then Some(catalog[0])
    else FindById(catalog[1..], id)
  }

  /** With ids unique, the lookup of a project's id returns that project. */
  lemma {:induction false} FindByIdUnique(catalog: seq<Project>, k: nat)
    requires k < |catalog|
    requires forall j :: 0 <= j < |catalog| && j != k ==> catalog[j].id != catalog[k].id
    ensures FindById(catalog, catalog[k].id) == Some(catalog[k])
  {
    if k > 0 {
      FindByIdUnique(catalog[1..], k - 1);
    }
  }

  /** `getProjectById`: the lookup in the shipped catalog. */
  function GetProjectById(id: string): (r: Option<Project>)
    ensures r.Some? ==> r.value.id == id && r.value in Projects
    ensures r.None? <==> forall k :: 0 <= k < |Projects| ==> Projects[k].id != id
  {
    FindById(Projects, id)
  }

  /** The catalog's ids, read off project by project. */
  lemma ProjectIdsInOrder()
    ensures |Projects| == |ProjectIds| == 6
    ensures forall k :: 0 <= k < |Projects| ==> Projects[k].id == ProjectIds[k]
  {
    assert Projects[0].id == ProjectIds[0] && Projects[1].id == ProjectIds[1];
    assert Projects[2].id == ProjectIds[2] && Projects[3].id == ProjectIds[3];
    assert Projects[4].id == ProjectIds[4] && Projects[5].id == ProjectIds[5];
  }

  /** Project ids are unique. */
  lemma ProjectIdsDistinct()
    ensures forall j, k :: 0 <= j < k < |Projects| ==> Projects[j].id != Projects[k].id
  {
    ProjectIdsInOrder();
  }

  /** Every project is found by its own id. */
  lemma {:induction false} ProjectFoundById(k: nat)
    requires k < |Projects|
    ensures GetProjectById(Projects[k].id) == Some(Projects[k])
  {
    ProjectIdsDistinct();
    FindByIdUnique(Projects, k);
  }

  /** The lookup finds exactly the catalog's ids. */
  lemma {:induction false} GetProjectByIdFinds(id: string)
    ensures GetProjectById(id).Some? <==> id in ProjectIds
  {
    ProjectIdsInOrder();
    if id in ProjectIds {
      var k :| 0 <= k < |ProjectIds| && ProjectIds[k] == id;
      ProjectFoundById(k);
    }
  }

  /** The neural-map connection lists, in catalog order. */
  const DeclaredConnections: seq<seq<string>> := [
    ["vocapp", "crym"], ["vocapp"], ["lokitunes", "matrixarena"], ["crym"],
    ["lokitunes", "bountyhunter"], ["matrixarena"]]

  lemma ConnectionsInOrder()
    ensures forall k :: 0 <= k < |Projects| ==>
      Projects[k].mappings.neuralMap.connections == DeclaredConnections[k]
  {
  }

  /** Every neural-map connection names an existing project other than its owner. */
  lemma {:induction false} ConnectionsResolve(k: nat, c: string)
    requires k < |Projects| && c in Projects[k].mappings.neuralMap.connections
    ensures GetProjectById(c).Some? && c != Projects[k].id
  {
    ProjectIdsInOrder();
    ConnectionsInOrder();
    var cs := DeclaredConnections[k];
    assert c in cs;
    if k == 0 { assert c == "vocapp" || c == "crym"; }
    else if k == 1 { assert c == "vocapp"; }
    else if k == 2 { assert c == "lokitunes" || c == "matrixarena"; }
    else if k == 3 { assert c == "crym"; }
    else if k == 4 { assert c == "lokitunes" || c == "bountyhunter"; }
    else { assert c == "matrixarena"; }
    GetProjectByIdFinds(c);
  }

  /** The body part, vending slot and radio frequency columns, in catalog order. */
  const BodyParts: seq<BodyPart> := [Ear, Brain, Mouth, Hands, Eye, Heart]
  const Slots: seq<string> := ["A1", "A2", "B1", "B2", "C1", "C2"]
  const Frequencies: seq<int> := [881, 925, 963, 1017, 1059, 1080]

  /** The body part, vending slot and radio frequency of each project, in catalog order. */
  lemma MappingsInOrder()
    ensures |BodyParts| == |Slots| == |Frequencies| == |Projects|
    ensures forall k :: 0 <= k < |Projects| ==>
      Projects[k].mappings.bodyPart == BodyParts[k] &&
      Projects[k].mappings.vendingMachine.slot == Slots[k] &&
      Projects[k].mappings.frequencyTenths == Frequencies[k]
  {
  }

  /** No column repeats a value, and the slots are exactly A1, A2, B1, B2, C1, C2. */
  lemma ColumnsDistinct()
    ensures forall j, k :: 0 <= j < k < 6 ==>
      BodyParts[j] != BodyParts[k] && Slots[j] != Slots[k] && Frequencies[j] != Frequencies[k]
    ensures (set k | 0 <= k < 6 :: Slots[k]) == {"A1", "A2", "B1", "B2", "C1", "C2"}
  {
    var slots := set k | 0 <= k < 6 :: Slots[k];
    assert Slots[0] in slots && Slots[1] in slots && Slots[2] in slots;
    assert Slots[3] in slots && Slots[4] in slots && Slots[5] in slots;
  }

  /** Body parts, vending slots and radio frequencies are pairwise distinct, and the
      slots are exactly A1, A2, B1, B2, C1, C2. */
  lemma MappingsDistinct()
    ensures forall j, k :: 0 <= j < k < |Projects| ==>
      Projects[j].mappings.bodyPart != Projects[k].mappings.bodyPart &&
      Projects[j].mappings.vendingMachine.slot != Projects[k].mappings.vendingMachine.slot &&
      Projects[j].mappings.frequencyTenths != Projects[k].mappings.frequencyTenths
    ensures (set k | 0 <= k < |Projects| :: Projects[k].mappings.vendingMachine.slot)
      == {"A1", "A2", "B1", "B2", "C1", "C2"}
  {
    MappingsInOrder();
    ColumnsDistinct();
    assert (set k | 0 <= k < |Projects| :: Projects[k].mappings.vendingMachine.slot)
      == (set k | 0 <= k < 6 :: Slots[k]);
  }

  /** Exactly one project is coming soon: the podcast, whose url is "#". */
  lemma {:induction false} OnlyPodcastComingSoon()
    ensures forall k :: 0 <= k < |Projects| ==>
      (Projects[k].status == ComingSoon <==> Projects[k].id == "podcast")
    ensures GetProjectById("podcast") == Some(Podcast) && Podcast.url == "#"
  {
    ProjectIdsInOrder();
    ProjectFoundById(5);
  }
}
