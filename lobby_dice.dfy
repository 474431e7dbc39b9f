/** The lobby's roll button of src/components/core/EntryLobby/Dice.tsx: fifteen
    interval ticks of random faces, then the store's `rollDice` picks the scene and
    the button shows that face until a short timeout re-enables it. */
module LobbyDice {
  import opened Wrappers
  import Registry
  import Store
  import Die

  /** The ticks an interval runs before the store rolls (`maxRolls`). */
  const MaxRolls: nat := 15

  /** `diceFaces`, the die glyphs U+2680 to U+2685 for faces 1 to 6. */
  const DiceFaces: seq<string> := ["\U{2680}", "\U{2681}", "\U{2682}", "\U{2683}", "\U{2684}", "\U{2685}"]

  /** `diceFaces[face - 1]`: undefined outside 1..6. */
  function Glyph(face: int): (r: Option<string>)
    ensures r.Some? <==> 1 <= face <= |DiceFaces|
    ensures r.Some? ==> r.value == DiceFaces[face - 1]
  {
    if 1 <= face <= |DiceFaces| then Some(DiceFaces[face - 1]) else None
  }

  /** The button's caption. */
  function Caption(isRolling: bool): string
  {
    if isRolling then "Rolling..." else "Roll the Dice"
  }

  class Roller {
    const store: Store.Store
    var isRolling: bool
    var currentFace: int
    /** The running interval's captured counter. */
    var rollCount: nat
    var intervalRunning: bool
    /** The 500 ms timeout that re-enables the button is scheduled and not fired. */
    var stopPending: bool
    /** How many times this button called `rollDice`. */
    var rolls: nat

    /** The face always has a glyph; the button stays disabled from the press until
        the timeout after the roll, and in that span exactly one of the interval or
        the timeout is pending. */
    ghost predicate Valid()
      reads this
    {
      && 1 <= currentFace <= 6
      && rollCount <= MaxRolls
      && (isRolling <==> intervalRunning || stopPending)
      && !(intervalRunning && stopPending)
      && (intervalRunning ==> rollCount < MaxRolls)
      && (stopPending ==> rollCount == MaxRolls)
    }

    constructor (store: Store.Store)
      ensures Valid() && this.store == store
      ensures !isRolling && currentFace == 1 && rollCount == 0 && !intervalRunning && !stopPending
      ensures rolls == 0
    {
      this.store := store;
      isRolling := false;
      currentFace := 1;
      rollCount := 0;
      intervalRunning := false;
      stopPending := false;
      rolls := 0;
    }

    /** `handleRoll`: ignored while rolling; otherwise starts a fresh interval. */
    method HandleRoll()
      requires Valid()
      modifies this
      ensures Valid()
      ensures old(isRolling) ==>
        && intervalRunning == old(intervalRunning) && rollCount == old(rollCount)
        && stopPending == old(stopPending)
      ensures !old(isRolling) ==> isRolling && intervalRunning && rollCount == 0 && !stopPending
      ensures isRolling && currentFace == old(currentFace) && rolls == old(rolls)
    {
      if isRolling {
        return;
      }
      isRolling := true;
      rollCount := 0;
      intervalRunning := true;
    }

    /** One interval tick with the face draw `faceR`; the fifteenth stops the
        interval, calls `rollDice` with the draw `r` and shows the rolled face. */
    method Tick(faceR: real, r: real) returns (rolled: Option<int>)
      requires Valid() && intervalRunning
      requires 0.0 <= faceR < 1.0 && 0.0 <= r < 1.0
      modifies this, store
      ensures Valid() && isRolling
      ensures rollCount == old(rollCount) + 1
      ensures rollCount < MaxRolls ==>
        && rolled == None && intervalRunning && currentFace == Die.FaceDraw(faceR)
        && rolls == old(rolls) && store.State() == old(store.State())
      ensures rollCount == MaxRolls ==>
        && rolled == Some(Registry.RandomInterfaceId(r)) && currentFace == rolled.value
        && !intervalRunning && stopPending && rolls == old(rolls) + 1
        && store.currentInterface == rolled && store.navigationSource == Store.Dice
        && store.visitedInterfaces == Store.Visit(old(store.visitedInterfaces), rolled)
        && store.audioEnabled == old(store.audioEnabled) && store.isLoading == old(store.isLoading)
    {
      currentFace := Die.FaceDraw(faceR);
      rollCount := rollCount + 1;
      rolled := None;
      if rollCount >= MaxRolls {
        intervalRunning := false;
        var result := store.RollDice(r);
        rolls := rolls + 1;
        currentFace := result;
        rolled := Some(result);
        stopPending := true;
      }
    }

    /** The 500 ms timeout fires and the button is enabled again. */
    method StopTimeout()
      requires Valid() && stopPending
      modifies this
      ensures Valid() && !isRolling && !stopPending
      ensures currentFace == old(currentFace) && rollCount == old(rollCount) && rolls == old(rolls)
    {
      stopPending := false;
      isRolling := false;
    }
  }

  /** A press from a fresh lobby: fifteen ticks, exactly one call of `rollDice`, the
      button shows the glyph of the rolled scene, and it becomes enabled only once
      the timeout has fired. */
  method RollOnce(draws: seq<real>, r: real)
    returns (ticks: nat, rolls: nat, face: int, glyph: Option<string>, screen: Option<int>,
             rollingBeforeTimeout: bool, rollingAfterTimeout: bool)
    requires |draws| == MaxRolls && forall k :: 0 <= k < |draws| ==> 0.0 <= draws[k] < 1.0
    requires 0.0 <= r < 1.0
    ensures ticks == MaxRolls && rolls == 1
    ensures face == Registry.RandomInterfaceId(r) && screen == Some(face)
    ensures glyph == Some(DiceFaces[face - 1])
    ensures rollingBeforeTimeout && !rollingAfterTimeout
  {
    var s := new Store.Store();
    var d := new Roller(s);
    d.HandleRoll();
    ticks := 0;
    while d.intervalRunning
      invariant d.Valid() && d.store == s && d.isRolling
      invariant ticks == d.rollCount
      invariant d.intervalRunning ==> d.rolls == 0
      invariant !d.intervalRunning ==>
        && ticks == MaxRolls && d.rolls == 1 && d.stopPending
        && d.currentFace == Registry.RandomInterfaceId(r)
        && s.currentInterface == Some(d.currentFace)
      decreases MaxRolls - ticks
    {
      var _ := d.Tick(draws[ticks], r);
      ticks := ticks + 1;
    }
    rolls := d.rolls;
    face := d.currentFace;
    glyph := Glyph(face);
    screen := s.currentInterface;
    rollingBeforeTimeout := d.isRolling;
    d.StopTimeout();
    rollingAfterTimeout := d.isRolling;
  }

  /** A press during a roll is ignored: the interval keeps its count and no second
      roll starts. */
  method PressWhileRolling(faceR: real, r: real) returns (count: nat, rolls: nat)
    requires 0.0 <= faceR < 1.0 && 0.0 <= r < 1.0
    ensures count == 1 && rolls == 0
  {
    var s := new Store.Store();
    var d := new Roller(s);
    d.HandleRoll();
    var _ := d.Tick(faceR, r);
    d.HandleRoll();
    count := d.rollCount;
    rolls := d.rolls;
  }
}
