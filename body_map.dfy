/** The hotspot figure of src/components/interfaces/AnatomicalMap/BodySVG.tsx: each
    body part leads to the project mapped to it, a click selects or deselects that
    project, and the tooltip's button visits a live one. */
module AnatomicalMap {
  import opened Wrappers
  import Seqs
  import Catalog

  /** The order in which the hotspots are laid out (`bodyPartPositions`). */
  const PartOrder: seq<Catalog.BodyPart> :=
    [Catalog.Ear, Catalog.Brain, Catalog.Mouth, Catalog.Hands, Catalog.Eye, Catalog.Heart]

  /** `getProjectForBodyPart`: the first project mapped to `part`. */
  function ProjectForBodyPart(catalog: seq<Catalog.Project>, part: Catalog.BodyPart): (r: Option<Catalog.Project>)
    ensures r.Some? ==> r.value in catalog && r.value.mappings.bodyPart == part
    ensures r.None? <==> forall k :: 0 <= k < |catalog| ==> catalog[k].mappings.bodyPart != part
    ensures r.Some? ==>
      exists k :: (0 <= k < |catalog| && catalog[k] == r.value &&
                   forall m :: 0 <= m < k ==> catalog[m].mappings.bodyPart != part)
  {
    Seqs.Find(catalog, (p: Catalog.Project) => p.mappings.bodyPart == part)
  }

  /** A rendered hotspot: the part and its project. */
  datatype Hotspot = Hotspot(part: Catalog.BodyPart, project: Catalog.Project)

  /** The hotspots for `parts`, skipping every part without a project. */
  function Hotspots(catalog: seq<Catalog.Project>, parts: seq<Catalog.BodyPart>): (r: seq<Hotspot>)
    ensures |r| <= |parts|
    ensures forall h :: h in r ==> h.part in parts && ProjectForBodyPart(catalog, h.part) == Some(h.project)
    ensures forall p :: p in parts && ProjectForBodyPart(catalog, p).Some? ==>
      exists h :: h in r && h.part == p
  {
    if parts == [] then []
    else
      var rest := Hotspots(catalog, parts[1..]);
      var found := ProjectForBodyPart(catalog, parts[0]);
      if found.Some? then [Hotspot(parts[0], found.value)] + rest else rest
  }

  /** The tooltip's visit button. */
  datatype VisitButton = VisitButton(disabled: bool, caption: string)

  function TooltipButton(p: Catalog.Project): (b: VisitButton)
    ensures b.disabled <==> p.status != Catalog.Live
    ensures b.caption == "Enter Portal" <==> !b.disabled
    ensures b.caption == "Coming Soon" <==> b.disabled
  {
    if p.status == Catalog.Live then VisitButton(false, "Enter Portal")
    else VisitButton(true, "Coming Soon")
  }

  class BodyMap {
    const catalog: seq<Catalog.Project>
    var selectedProject: Option<Catalog.Project>

    /** A selection is always one of the catalog's projects. */
    ghost predicate Valid()
      reads this
    {
      selectedProject.Some? ==> selectedProject.value in catalog
    }

    constructor (catalog: seq<Catalog.Project>)
      ensures Valid() && this.catalog == catalog && selectedProject == None
    {
      this.catalog := catalog;
      selectedProject := None;
    }

    /** `handleClick(bodyPart)`: a part without a project changes nothing; the part of
        the selected project deselects it; any other part selects its project. */
    method HandleClick(part: Catalog.BodyPart)
      requires Valid()
      modifies this
      ensures Valid()
      ensures ProjectForBodyPart(catalog, part).None? ==> selectedProject == old(selectedProject)
      ensures ProjectForBodyPart(catalog, part).Some? ==>
        var p := ProjectForBodyPart(catalog, part).value;
        selectedProject == (if old(selectedProject).Some? && old(selectedProject).value.id == p.id
                            then None else Some(p))
    {
      var project := ProjectForBodyPart(catalog, part);
      if project.Some? {
        selectedProject := if selectedProject.Some? && selectedProject.value.id == project.value.id
                           then None else project;
      }
    }

    /** `handleVisit()`: the url to open, given only by a live selection. */
    method HandleVisit() returns (url: Option<string>)
      ensures url.Some? <==> selectedProject.Some? && selectedProject.value.status == Catalog.Live
      ensures url.Some? ==> url.value == selectedProject.value.url
    {
      if selectedProject.Some? && selectedProject.value.status == Catalog.Live {
        url := Some(selectedProject.value.url);
      } else {
        url := None;
      }
    }
  }

  /** Every part of the shipped figure maps to the project in the same catalog position. */
  lemma {:induction false} ShippedPartsMapped(k: nat)
    requires k < |PartOrder|
    ensures ProjectForBodyPart(Catalog.Projects, PartOrder[k]) == Some(Catalog.Projects[k])
  {
    Catalog.MappingsInOrder();
    Catalog.MappingsDistinct();
    Seqs.FindUnique(Catalog.Projects, (p: Catalog.Project) => p.mappings.bodyPart == PartOrder[k], k);
  }

  /** When every part maps to a project, there is one hotspot per part, in order. */
  lemma {:induction false} HotspotsWhenAllMapped(catalog: seq<Catalog.Project>, parts: seq<Catalog.BodyPart>,
                                                 projects: seq<Catalog.Project>)
    requires |parts| == |projects|
    requires forall k :: 0 <= k < |parts| ==> ProjectForBodyPart(catalog, parts[k]) == Some(projects[k])
    ensures |Hotspots(catalog, parts)| == |parts|
    ensures forall k :: 0 <= k < |parts| ==> Hotspots(catalog, parts)[k] == Hotspot(parts[k], projects[k])
  {
    if parts != [] {
      var ps, qs := parts[1..], projects[1..];
      forall k | 0 <= k < |ps|
        ensures ProjectForBodyPart(catalog, ps[k]) == Some(qs[k])
      {
        assert ps[k] == parts[k + 1] && qs[k] == projects[k + 1];
      }
      HotspotsWhenAllMapped(catalog, ps, qs);
      HotspotsCons(catalog, parts, projects[0]);
      var hs := Hotspots(catalog, parts);
      forall k | 0 <= k < |parts|
        ensures hs[k] == Hotspot(parts[k], projects[k])
      {
        if k > 0 {
          assert hs[k] == Hotspots(catalog, ps)[k - 1];
          assert ps[k - 1] == parts[k] && qs[k - 1] == projects[k];
        }
      }
    }
  }

  /** A mapped first part puts its hotspot in front of the others. */
  lemma HotspotsCons(catalog: seq<Catalog.Project>, parts: seq<Catalog.BodyPart>, p: Catalog.Project)
    requires parts != [] && ProjectForBodyPart(catalog, parts[0]) == Some(p)
    ensures Hotspots(catalog, parts) == [Hotspot(parts[0], p)] + Hotspots(catalog, parts[1..])
  {
  }

  /** With the shipped catalog all six parts get a hotspot, in layout order, each
      with the project in the same catalog position. */
  lemma ShippedHotspots()
    ensures |Hotspots(Catalog.Projects, PartOrder)| == 6
    ensures forall k :: 0 <= k < 6 ==> Hotspots(Catalog.Projects, PartOrder)[k] == Hotspot(PartOrder[k], Catalog.Projects[k])
  {
    forall k | 0 <= k < 6
      ensures ProjectForBodyPart(Catalog.Projects, PartOrder[k]) == Some(Catalog.Projects[k])
    {
      ShippedPartsMapped(k);
    }
    HotspotsWhenAllMapped(Catalog.Projects, PartOrder, Catalog.Projects);
  }

  /** From no selection, two clicks on the same mapped part select and then deselect. */
  method ClickTwice(part: Catalog.BodyPart) returns (first: Option<Catalog.Project>, second: Option<Catalog.Project>)
    ensures first == ProjectForBodyPart(Catalog.Projects, part) && first.Some?
    ensures second == None
  {
    var m := new BodyMap(Catalog.Projects);
    var k := if part == Catalog.Ear then 0 else if part == Catalog.Brain then 1
             else if part == Catalog.Mouth then 2 else if part == Catalog.Hands then 3
             else if part == Catalog.Eye then 4 else 5;
    assert PartOrder[k] == part;
    ShippedPartsMapped(k);
    m.HandleClick(part);
    first := m.selectedProject;
    m.HandleClick(part);
    second := m.selectedProject;
  }

  /** Clicking another part moves the selection instead of clearing it. */
  method ClickOther() returns (selected: Option<Catalog.Project>)
    ensures selected == Some(Catalog.Crym)
  {
    var m := new BodyMap(Catalog.Projects);
    ShippedPartsMapped(0);
    ShippedPartsMapped(4);
    Catalog.ProjectIdsInOrder();
    m.HandleClick(Catalog.Ear);
    m.HandleClick(Catalog.Eye);
    selected := m.selectedProject;
  }

  /** Visiting the heart's project (the coming-soon podcast) opens nothing; visiting
      the eye's opens Crym.space. */
  method VisitHeartAndEye() returns (heart: Option<string>, eye: Option<string>)
    ensures heart == None && eye == Some("https://crym.space")
  {
    var m := new BodyMap(Catalog.Projects);
    ShippedPartsMapped(5);
    m.HandleClick(Catalog.Heart);
    heart := m.HandleVisit();
    var n := new BodyMap(Catalog.Projects);
    ShippedPartsMapped(4);
    n.HandleClick(Catalog.Eye);
    eye := n.HandleVisit();
  }

  /** Clicking a part that no project maps to leaves the selection alone. */
  method ClickUnmapped(p: Catalog.Project) returns (selected: Option<Catalog.Project>)
    requires p.mappings.bodyPart == Catalog.Ear
    ensures selected == Some(p)
  {
    var m := new BodyMap([p]);
    assert ProjectForBodyPart([p], Catalog.Ear) == Some(p);
    m.HandleClick(Catalog.Ear);
    m.HandleClick(Catalog.Heart);
    selected := m.selectedProject;
  }
}
