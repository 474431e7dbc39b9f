/** The screen selection of src/App.tsx: which main screen and which chrome are
    rendered for a value of `currentInterface`. */
module Shell {
  import opened Wrappers
  import Registry
  import Store

  /** The main screens of the shell. */
  datatype MainScreen = DiceLandingScreen | SelectionScreen | InterfaceScreen(iface: Registry.Interface)

  /** What the shell renders: the main screens inside the transition container, and
      whether the audio toggle and the back button are present. */
  datatype Frame = Frame(audioToggle: bool, backButton: bool, main: seq<MainScreen>)

  predicate ShowDiceLanding(current: Option<int>) {
    current.None?
  }

  predicate ShowSelection(current: Option<int>) {
    current == Some(-1)
  }

  predicate ShowInterface(current: Option<int>) {
    current.Some? && current.value > 0
  }

  /** `activeInterface`: the registry entry of a truthy positive id, otherwise none
      (the source's `null` and `undefined` are both `None`). */
  function ActiveInterface(current: Option<int>): (r: Option<Registry.Interface>)
    ensures r.Some? <==> current.Some? && 1 <= current.value <= |Registry.Interfaces|
    ensures r.Some? ==> r.value == Registry.Interfaces[current.value - 1] && r.value.id == current.value
  {
    if Store.Truthy(current) && current.value > 0 then
      Registry.GetInterfaceByIdResolves(current.value);
      Registry.GetInterfaceById(current.value)
    else None
  }

  /** The rendered frame. The three main screens are separate conditionals, as in the
      source, so that exclusiveness is a property and not a construction. */
  function Render(current: Option<int>): Frame {
    Frame(
      true,
      ShowInterface(current),
      (if ShowDiceLanding(current) then [DiceLandingScreen] else []) +
      (if ShowSelection(current) then [SelectionScreen] else []) +
      (if ShowInterface(current) && ActiveInterface(current).Some?
       then [InterfaceScreen(ActiveInterface(current).value)] else []))
  }

  /** At most one main screen is ever rendered, and which one is determined by the
      value: landing iff null, lobby iff -1, a scene iff a registry id. Every other
      value (0, below -1, or a positive id missing from the registry) renders no main
      screen. The audio toggle is always present; the back button exactly for
      positive values, including unknown ones. */
  lemma RenderCases(current: Option<int>)
    ensures |Render(current).main| <= 1
    ensures Render(current).audioToggle
    ensures Render(current).backButton <==> current.Some? && current.value > 0
    ensures Render(current).main == [DiceLandingScreen] <==> current.None?
    ensures Render(current).main == [SelectionScreen] <==> current == Some(-1)
    ensures (exists i :: Render(current).main == [InterfaceScreen(i)]) <==>
      current.Some? && 1 <= current.value <= |Registry.Interfaces|
    ensures current.Some? && 1 <= current.value <= |Registry.Interfaces| ==>
      Render(current).main == [InterfaceScreen(Registry.Interfaces[current.value - 1])]
    ensures Render(current).main == [] <==>
      current.Some? && (current.value == 0 || current.value < -1 || current.value > |Registry.Interfaces|)
  {
    var main := Render(current).main;
    if current.None? {
      assert main == [DiceLandingScreen];
    } else if current == Some(-1) {
      assert main == [SelectionScreen];
    } else if 1 <= current.value <= |Registry.Interfaces| {
      assert main == [InterfaceScreen(Registry.Interfaces[current.value - 1])];
      assert main[0] != DiceLandingScreen && main[0] != SelectionScreen;
    } else {
      assert main == [];
    }
  }

  /** The flags are pairwise exclusive. */
  lemma FlagsExclusive(current: Option<int>)
    ensures !(ShowDiceLanding(current) && ShowSelection(current))
    ensures !(ShowDiceLanding(current) && ShowInterface(current))
    ensures !(ShowSelection(current) && ShowInterface(current))
    ensures current.Some? && (current.value == 0 || current.value < -1) ==>
      !ShowDiceLanding(current) && !ShowSelection(current) && !ShowInterface(current)
  {
  }

  /** The values the application's own callers store: the landing, the lobby and the
      registry ids. */
  predicate Routable(current: Option<int>) {
    current.None? || current == Some(-1) || (current.Some? && 1 <= current.value <= |Registry.Interfaces|)
  }

  /** For every routable value exactly one main screen is rendered. */
  lemma ExactlyOneScreen(current: Option<int>)
    requires Routable(current)
    ensures |Render(current).main| == 1
  {
    RenderCases(current);
  }

  /** The dice roll and the back action only ever lead to routable values. */
  lemma {:induction false} NavigationStaysRoutable(r: real, source: Store.NavigationSource)
    requires 0.0 <= r < 1.0
    ensures Routable(Some(Registry.RandomInterfaceId(r)))
    ensures Routable(Store.LobbyTarget(source))
    ensures |Render(Store.LobbyTarget(source)).main| == 1
  {
    ExactlyOneScreen(Store.LobbyTarget(source));
  }

  /** A positive id absent from the registry shows the back button over an empty
      main area; it does not fall back to the landing. */
  lemma UnknownSceneIsBlank(id: int)
    requires id > |Registry.Interfaces|
    ensures Render(Some(id)) == Frame(true, true, [])
  {
    RenderCases(Some(id));
  }
}
