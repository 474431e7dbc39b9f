/** The interface registry of src/config/interfaces.ts: the six selectable scenes,
    lookup by id and the dice's random pick. */
module Registry {
  import opened Wrappers
  import Seqs

  datatype Complexity = Low | Medium | High
  datatype MobileSupport = Full | Partial | DesktopOnly

  /** One scene descriptor. The lazily loaded renderer is not part of the model. */
  datatype Interface = Interface(
    id: int,
    slug: string,
    name: string,
    description: string,
    thumbnail: string,
    complexity: Complexity,
    mobileSupport: MobileSupport)

  const Interfaces: seq<Interface> := [
    Interface(1, "neural-map", "Neural Map", "Consciousness network of pulsing nodes",
              "/thumbs/neural-map.png", Medium, Full),
    Interface(2, "anatomical-map", "Anatomical Map", "Da Vinci-style body exploration",
              "/thumbs/anatomical-map.png", Medium, Full),
    Interface(3, "retro-os", "Retro OS", "Windows 95 desktop experience",
              "/thumbs/retro-os.png", Medium, Partial),
    Interface(4, "pirate-broadcast", "Pirate Broadcast", "Tune into clandestine frequencies",
              "/thumbs/pirate-broadcast.png", Medium, Full),
    Interface(5, "control-room", "Control Room", "1970s sci-fi command center",
              "/thumbs/control-room.png", Medium, Full),
    Interface(6, "vending-machine", "Vending Machine", "Vaporwave product dispenser",
              "/thumbs/vending-machine.png", High, Partial)
  ]

  /** The id rolled for a draw `r` of `Math.random()`: `floor(r * length) + 1`. */
  function RandomInterfaceId(r: real): (id: int)
    requires 0.0 <= r < 1.0
    ensures 1 <= id <= |Interfaces|
  {
    (r * |Interfaces| as real).Floor + 1
  }

  /** Every id of the table is the result of some draw, so no scene is unreachable. */
  lemma RandomInterfaceIdReachesEvery(k: int)
    requires 1 <= k <= |Interfaces|
    ensures 0.0 <= (k - 1) as real / |Interfaces| as real < 1.0
    ensures RandomInterfaceId((k - 1) as real / |Interfaces| as real) == k
  {
    var r := (k - 1) as real / |Interfaces| as real;
    assert r * |Interfaces| as real == (k - 1) as real;
  }

  /** The first entry whose id is `id`, as `interfaces.find` returns it. */
  function GetInterfaceById(id: int): (r: Option<Interface>)
    ensures r.Some? ==> r.value.id == id && r.value in Interfaces
    ensures r.None? <==> forall k :: 0 <= k < |Interfaces| ==> Interfaces[k].id != id
  {
    Seqs.Find(Interfaces, (i: Interface) => i.id == id)
  }

  /** The ids are 1 to 6 in table order, hence unique; the slugs are unique too. */
  lemma InterfaceIdsAreTablePositions()
    ensures forall k :: 0 <= k < |Interfaces| ==> Interfaces[k].id == k + 1
    ensures forall j, k :: 0 <= j < k < |Interfaces| ==> Interfaces[j].id != Interfaces[k].id
    ensures forall j, k :: 0 <= j < k < |Interfaces| ==> Interfaces[j].slug != Interfaces[k].slug
  {
  }

  /** The lookup resolves exactly the ids 1..6, each to its table entry; -1, 0 and
      ids above 6 are not found. */
  lemma {:induction false} GetInterfaceByIdResolves(id: int)
    ensures GetInterfaceById(id).Some? <==> 1 <= id <= |Interfaces|
    ensures 1 <= id <= |Interfaces| ==> GetInterfaceById(id) == Some(Interfaces[id - 1])
    ensures 1 <= id <= |Interfaces| ==> Interfaces[id - 1].id == id
  {
    InterfaceIdsAreTablePositions();
    if 1 <= id <= |Interfaces| {
      Seqs.FindUnique(Interfaces, (i: Interface) => i.id == id, id - 1);
    }
  }

  /** Every value the random pick can return resolves to the entry with that id. */
  lemma RandomIdResolves(r: real)
    requires 0.0 <= r < 1.0
    ensures GetInterfaceById(RandomInterfaceId(r)) == Some(Interfaces[RandomInterfaceId(r) - 1])
    ensures Interfaces[RandomInterfaceId(r) - 1].id == RandomInterfaceId(r)
  {
    var id := RandomInterfaceId(r);
    GetInterfaceByIdResolves(id);
  }
}
