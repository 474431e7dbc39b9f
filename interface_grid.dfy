/** The scene chooser of src/components/core/EntryLobby/InterfaceGrid.tsx: one card
    per registry entry, marked when it has been visited, that enters its scene on a
    click, with a decoration chosen by slug. */
module InterfaceGrid {
  import opened Wrappers
  import Registry
  import Store

  /** What a card shows: the entry and whether it carries the visited mark. */
  datatype Card = Card(id: int, slug: string, name: string, description: string, visited: bool)

  /** The card of one registry entry, given the store's visited list. */
  function CardFor(iface: Registry.Interface, visited: seq<int>): (c: Card)
    ensures c.id == iface.id && c.slug == iface.slug && c.name == iface.name
    ensures c.visited <==> iface.id in visited
  {
    Card(iface.id, iface.slug, iface.name, iface.description, iface.id in visited)
  }

  /** The grid: `interfaces.map`, in registry order. */
  function Cards(visited: seq<int>): (r: seq<Card>)
    ensures |r| == |Registry.Interfaces|
    ensures forall k :: 0 <= k < |r| ==> r[k] == CardFor(Registry.Interfaces[k], visited)
  {
    seq(|Registry.Interfaces|, k requires 0 <= k < |Registry.Interfaces| => CardFor(Registry.Interfaces[k], visited))
  }

  /** The grid lists the scenes 1 to 6 in order, and the card of scene k + 1 is
      marked exactly when k + 1 has been visited. */
  lemma CardsFollowRegistry(visited: seq<int>)
    ensures forall k :: 0 <= k < |Cards(visited)| ==>
      Cards(visited)[k].id == k + 1 && (Cards(visited)[k].visited <==> k + 1 in visited)
  {
    Registry.InterfaceIdsAreTablePositions();
  }

  /** The decoration drawn over a thumbnail. */
  datatype Decor = NetworkSketch | FigureSketch | WindowSketch | DialSketch | PanelSketch | MachineSketch

  /** `ThumbnailDecor`: one decoration per known slug, nothing for any other. */
  function ThumbnailDecor(slug: string): (r: Option<Decor>)
    ensures r.None? <==> forall k :: 0 <= k < |Registry.Interfaces| ==> Registry.Interfaces[k].slug != slug
  {
    match slug
    case "neural-map" => assert Registry.Interfaces[0].slug == slug; Some(NetworkSketch)
    case "anatomical-map" => assert Registry.Interfaces[1].slug == slug; Some(FigureSketch)
    case "retro-os" => assert Registry.Interfaces[2].slug == slug; Some(WindowSketch)
    case "pirate-broadcast" => assert Registry.Interfaces[3].slug == slug; Some(DialSketch)
    case "control-room" => assert Registry.Interfaces[4].slug == slug; Some(PanelSketch)
    case "vending-machine" => assert Registry.Interfaces[5].slug == slug; Some(MachineSketch)
    case _ => None
  }

  /** Every registry card is decorated, and no two with the same decoration. */
  lemma ThumbnailsDistinct()
    ensures forall k :: 0 <= k < |Registry.Interfaces| ==> ThumbnailDecor(Registry.Interfaces[k].slug).Some?
    ensures forall j, k :: 0 <= j < k < |Registry.Interfaces| ==>
      ThumbnailDecor(Registry.Interfaces[j].slug) != ThumbnailDecor(Registry.Interfaces[k].slug)
  {
  }

  /** A click on card `k`: `setInterface(iface.id)` with no source. */
  method ClickCard(store: Store.Store, k: nat)
    requires k < |Registry.Interfaces|
    modifies store
    ensures store.currentInterface == Some(Registry.Interfaces[k].id)
    ensures store.navigationSource == Store.NoSource
    ensures store.visitedInterfaces == Store.Visit(old(store.visitedInterfaces), Some(Registry.Interfaces[k].id))
    ensures store.audioEnabled == old(store.audioEnabled) && store.isLoading == old(store.isLoading)
  {
    store.SetInterface(Some(Registry.Interfaces[k].id), Store.NoSource);
  }

  /** From the lobby, a click on card `k` enters scene k + 1, its card is then
      marked visited, and going back returns to the lobby rather than the landing. */
  method ClickThenBack(k: nat) returns (entered: Option<int>, marked: bool, back: Option<int>)
    requires k < |Registry.Interfaces|
    ensures entered == Some(k + 1) && marked && back == Some(-1)
  {
    var s := new Store.Store();
    s.SetInterface(Some(-1), Store.NoSource);
    ClickCard(s, k);
    Registry.InterfaceIdsAreTablePositions();
    entered := s.currentInterface;
    marked := Cards(s.visitedInterfaces)[k].visited;
    s.GoToLobby();
    back := s.currentInterface;
  }
}
