/** The navigation store of src/store/useStore.ts. The store keeps the source's own
    encoding of the current screen as a `number | null`: `None` is the dice landing,
    `Some(-1)` the selection lobby and a positive id a scene. */
module Store {
  import opened Wrappers
  import Seqs
  import Registry

  /** How the visitor reached the current screen; `NoSource` is JavaScript's `null`,
      which is also what an omitted `source` argument becomes (`source ?? null`). */
  datatype NavigationSource = Dice | Selection | NoSource

  /** JavaScript truthiness of a `number | null`: neither `null` nor `0`. So `-1` is
      truthy. (NaN is not a value of the model.) */
  predicate Truthy(id: Option<int>) {
    id.Some? && id.value != 0
  }

  /** The visited list after entering `id`: the id is appended when it is truthy and
      not yet present. */
  function Visit(visited: seq<int>, id: Option<int>): (r: seq<int>)
    ensures visited <= r && |r| <= |visited| + 1
    ensures forall x :: x in r <==> x in visited || (Truthy(id) && x == id.value)
    ensures Seqs.NoDuplicates(visited) ==> Seqs.NoDuplicates(r)
  {
    if Truthy(id) && id.value !in visited then visited + [id.value] else visited
  }

  /** Where `goToLobby` leads: back to the landing after a dice roll, to the
      selection lobby otherwise. */
  function LobbyTarget(source: NavigationSource): (r: Option<int>)
    ensures r == None <==> source == Dice
    ensures r != None ==> r == Some(-1)
  {
    if source == Dice then None else Some(-1)
  }

  /** The part of the state the `persist` middleware writes (`partialize`). */
  datatype Persisted = Persisted(audioEnabled: bool, visitedInterfaces: seq<int>)

  /** All five fields of the store at one moment. */
  datatype AppState = AppState(
    currentInterface: Option<int>,
    navigationSource: NavigationSource,
    isLoading: bool,
    audioEnabled: bool,
    visitedInterfaces: seq<int>)

  class Store {
    var currentInterface: Option<int>
    var navigationSource: NavigationSource
    var isLoading: bool
    var audioEnabled: bool
    var visitedInterfaces: seq<int>

    /** Every state the store's actions reach lists each visited id once. */
    ghost predicate Valid()
      reads this
    {
      Seqs.NoDuplicates(visitedInterfaces)
    }

    function State(): AppState
      reads this
    {
      AppState(currentInterface, navigationSource, isLoading, audioEnabled, visitedInterfaces)
    }

    /** A fresh store with the initial values and nothing persisted yet. */
    constructor ()
      ensures Valid()
      ensures State() == AppState(None, NoSource, false, false, [])
    {
      currentInterface := None;
      navigationSource := NoSource;
      isLoading := false;
      audioEnabled := false;
      visitedInterfaces := [];
    }

    /** A store after a reload: the persisted fields overlay the initial values. */
    constructor Rehydrate(saved: Persisted)
      ensures State() == AppState(None, NoSource, false, saved.audioEnabled, saved.visitedInterfaces)
      ensures Seqs.NoDuplicates(saved.visitedInterfaces) ==> Valid()
    {
      currentInterface := None;
      navigationSource := NoSource;
      isLoading := false;
      audioEnabled := saved.audioEnabled;
      visitedInterfaces := saved.visitedInterfaces;
    }

    /** `partialize`: exactly the audio preference and the visited list. */
    function Partialize(): (p: Persisted)
      reads this
      ensures p.audioEnabled == audioEnabled && p.visitedInterfaces == visitedInterfaces
    {
      Persisted(audioEnabled, visitedInterfaces)
    }

    /** `setInterface(id, source)`. */
    method SetInterface(id: Option<int>, source: NavigationSource)
      modifies this
      ensures currentInterface == id && navigationSource == source
      ensures visitedInterfaces == Visit(old(visitedInterfaces), id)
      ensures audioEnabled == old(audioEnabled) && isLoading == old(isLoading)
      ensures old(Valid()) ==> Valid()
    {
      var visited := visitedInterfaces;
      currentInterface := id;
      navigationSource := source;
      visitedInterfaces := if Truthy(id) && id.value !in visited then visited + [id.value] else visited;
    }

    /** `rollDice()`, with the draw of `Math.random()` given as `r`. */
    method RollDice(r: real) returns (newId: int)
      requires 0.0 <= r < 1.0
      modifies this
      ensures newId == Registry.RandomInterfaceId(r) && 1 <= newId <= |Registry.Interfaces|
      ensures currentInterface == Some(newId) && navigationSource == Dice
      ensures visitedInterfaces == Visit(old(visitedInterfaces), Some(newId))
      ensures newId in visitedInterfaces
      ensures audioEnabled == old(audioEnabled) && isLoading == old(isLoading)
      ensures old(Valid()) ==> Valid()
    {
      newId := Registry.RandomInterfaceId(r);
      SetInterface(Some(newId), Dice);
    }

    /** `setLoading(loading)`. */
    method SetLoading(loading: bool)
      modifies this
      ensures State() == old(State()).(isLoading := loading)
    {
      isLoading := loading;
    }

    /** `toggleAudio()`. */
    method ToggleAudio()
      modifies this
      ensures State() == old(State()).(audioEnabled := !old(audioEnabled))
    {
      audioEnabled := !audioEnabled;
    }

    /** `goToLobby()`: the back action. */
    method GoToLobby()
      modifies this
      ensures currentInterface == LobbyTarget(old(navigationSource))
      ensures navigationSource == NoSource
      ensures visitedInterfaces == old(visitedInterfaces)
      ensures audioEnabled == old(audioEnabled) && isLoading == old(isLoading)
    {
      var source := navigationSource;
      currentInterface := if source == Dice then None else Some(-1);
      navigationSource := NoSource;
    }
  }

  /** The visited list only grows and never holds an id twice, over any sequence of
      entries. */
  lemma {:induction false} VisitAllMonotone(visited: seq<int>, ids: seq<Option<int>>)
    requires Seqs.NoDuplicates(visited)
    ensures visited <= VisitAll(visited, ids)
    ensures Seqs.NoDuplicates(VisitAll(visited, ids))
    ensures forall x :: x in VisitAll(visited, ids) <==>
      x in visited || exists k :: 0 <= k < |ids| && Truthy(ids[k]) && ids[k].value == x
  {
    if ids != [] {
      var front := ids[..|ids| - 1];
      VisitAllMonotone(visited, front);
      var last := ids[|ids| - 1];
      forall x ensures x in VisitAll(visited, ids) <==>
        x in visited || exists k :: 0 <= k < |ids| && Truthy(ids[k]) && ids[k].value == x
      {
        if exists k :: 0 <= k < |front| && Truthy(front[k]) && front[k].value == x {
          var k :| 0 <= k < |front| && Truthy(front[k]) && front[k].value == x;
          assert ids[k] == front[k];
        }
        if exists k :: 0 <= k < |ids| && Truthy(ids[k]) && ids[k].value == x {
          var k :| 0 <= k < |ids| && Truthy(ids[k]) && ids[k].value == x;
          if k < |front| { assert front[k] == ids[k]; }
        }
      }
    }
  }

  /** The visited list after entering each id of `ids` in turn. */
  function VisitAll(visited: seq<int>, ids: seq<Option<int>>): seq<int>
  {
    if ids == [] then visited else Visit(VisitAll(visited, ids[..|ids| - 1]), ids[|ids| - 1])
  }

  /** A reload keeps the two persisted fields and resets the other three. */
  method Reload(s: Store) returns (t: Store)
    ensures t.audioEnabled == s.audioEnabled && t.visitedInterfaces == s.visitedInterfaces
    ensures t.currentInterface == None && t.navigationSource == NoSource && !t.isLoading
  {
    t := new Store.Rehydrate(s.Partialize());
  }

  /** A dice roll from a fresh store, then back: the visitor ends on the landing. */
  method RollThenBack(r: real) returns (k: int, rolled: AppState, back: AppState)
    requires 0.0 <= r < 1.0
    ensures k == Registry.RandomInterfaceId(r)
    ensures rolled == AppState(Some(k), Dice, false, false, [k])
    ensures back == AppState(None, NoSource, false, false, [k])
  {
    var s := new Store();
    k := s.RollDice(r);
    rolled := s.State();
    s.GoToLobby();
    back := s.State();
  }

  /** The lobby is recorded first, then scene 2 after it. */
  lemma VisitLobbyThenScene()
    ensures Visit([], Some(-1)) == [-1] && Visit([-1], Some(2)) == [-1, 2]
  {
  }

  /** Skip to the lobby, enter scene 2 from the grid, then back: the visitor ends in
      the lobby, not on the landing. */
  method LobbyEntryThenBack() returns (lobby: AppState, entered: AppState, back: AppState)
    ensures lobby == AppState(Some(-1), NoSource, false, false, [-1])
    ensures entered == AppState(Some(2), NoSource, false, false, [-1, 2])
    ensures back == AppState(Some(-1), NoSource, false, false, [-1, 2])
  {
    VisitLobbyThenScene();
    var s := new Store();
    s.SetInterface(Some(-1), NoSource);
    lobby := s.State();
    s.SetInterface(Some(2), NoSource);
    entered := s.State();
    s.GoToLobby();
    back := s.State();
  }

  /** Entering the same scene twice records it once. */
  method EnterTwice(id: int) returns (once: seq<int>, twice: seq<int>)
    ensures once == twice == (if id != 0 then [id] else [])
  {
    var s := new Store();
    s.SetInterface(Some(id), Selection);
    once := s.visitedInterfaces;
    s.SetInterface(Some(id), Selection);
    twice := s.visitedInterfaces;
  }

  /** Two toggles restore the audio preference; the persisted value flips in between. */
  method ToggleTwice(s: Store) returns (between: Persisted, after: Persisted)
    modifies s
    ensures between.audioEnabled == !old(s.audioEnabled)
    ensures after == old(s.Partialize()) && s.State() == old(s.State())
  {
    s.ToggleAudio();
    between := s.Partialize();
    s.ToggleAudio();
    after := s.Partialize();
  }
}
