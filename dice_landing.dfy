/** The landing page of src/components/core/DiceLanding/index.tsx: a die that rolls
    through twenty interval ticks, settles on a random scene and, after two timeouts,
    enters it; and a skip button to the selection lobby. The draws of `Math.random()`
    are parameters, the interval tick and the two timeouts are event methods; the
    on-screen positions of the roll are not part of the model. */
module DiceLanding {
  import opened Wrappers
  import Seqs
  import Registry
  import Store
  import Die

  /** One pip of a face, on the 3 by 3 grid. */
  datatype Dot = Dot(row: int, col: int)

  /** `dotPatterns`, face n at position n - 1. */
  const DotPatterns: seq<seq<Dot>> := [
    [Dot(1, 1)],
    [Dot(0, 0), Dot(2, 2)],
    [Dot(0, 0), Dot(1, 1), Dot(2, 2)],
    [Dot(0, 0), Dot(0, 2), Dot(2, 0), Dot(2, 2)],
    [Dot(0, 0), Dot(0, 2), Dot(1, 1), Dot(2, 0), Dot(2, 2)],
    [Dot(0, 0), Dot(0, 2), Dot(1, 0), Dot(1, 2), Dot(2, 0), Dot(2, 2)]
  ]

  /** `dotPatterns[n]`: undefined outside 1..6. */
  function DotPattern(n: int): (r: Option<seq<Dot>>)
    ensures r.Some? <==> 1 <= n <= 6
  {
    if 1 <= n <= 6 then Some(DotPatterns[n - 1]) else None
  }

  /** Face n has exactly n pips, each on the grid, no two on the same cell, and the
      pattern looks the same turned half a turn, as on a real die. */
  lemma {:induction false} DotPatternShape(n: int)
    requires 1 <= n <= 6
    ensures DotPattern(n).Some?
    ensures var dots := DotPattern(n).value;
      && |dots| == n
      && (forall k :: 0 <= k < |dots| ==> 0 <= dots[k].row <= 2 && 0 <= dots[k].col <= 2)
      && Seqs.NoDuplicates(dots)
      && (forall k :: 0 <= k < |dots| ==> Dot(2 - dots[k].row, 2 - dots[k].col) in dots)
  {
    var dots := DotPatterns[n - 1];
    if n == 1 { assert dots == [Dot(1, 1)]; }
    else if n == 2 { assert dots == [Dot(0, 0), Dot(2, 2)]; }
    else if n == 3 { assert dots == [Dot(0, 0), Dot(1, 1), Dot(2, 2)]; }
    else if n == 4 { assert dots == [Dot(0, 0), Dot(0, 2), Dot(2, 0), Dot(2, 2)]; }
    else if n == 5 { assert dots == [Dot(0, 0), Dot(0, 2), Dot(1, 1), Dot(2, 0), Dot(2, 2)]; }
    else { assert dots == [Dot(0, 0), Dot(0, 2), Dot(1, 0), Dot(1, 2), Dot(2, 0), Dot(2, 2)]; }
  }

  /** The cube's orientation, in degrees. */
  datatype Rotation = Rotation(rotateX: int, rotateY: int)

  /** The angled view of the idle die. */
  const IdleRotation := Rotation(-25, 35)

  /** `faceRotations[n]`: undefined outside 1..6. */
  function FaceRotation(n: int): (r: Option<Rotation>)
    ensures r.Some? <==> 1 <= n <= 6
  {
    match n
    case 1 => Some(Rotation(0, 0))
    case 2 => Some(Rotation(0, -90))
    case 3 => Some(Rotation(-90, 0))
    case 4 => Some(Rotation(90, 0))
    case 5 => Some(Rotation(0, 90))
    case 6 => Some(Rotation(180, 0))
    case _ => None
  }

  /** The rotation the die shows: the idle view before any face, else that face's. */
  function DisplayedRotation(currentFace: Option<int>): (r: Option<Rotation>)
    ensures currentFace.None? ==> r == Some(IdleRotation)
    ensures currentFace.Some? ==> (r.Some? <==> 1 <= currentFace.value <= 6)
  {
    match currentFace
    case None => Some(IdleRotation)
    case Some(n) => FaceRotation(n)
  }

  /** Different faces turn the cube differently, and none is the idle view. */
  lemma FaceRotationsDistinct(a: int, b: int)
    requires 1 <= a <= 6 && 1 <= b <= 6
    ensures a != b ==> FaceRotation(a) != FaceRotation(b)
    ensures FaceRotation(a) != Some(IdleRotation)
  {
  }

  /** The face the dice lands on always has a rotation: the final face is a random
      scene id, which lies in 1..6. */
  lemma FinalFaceHasRotation(r: real)
    requires 0.0 <= r < 1.0
    ensures FaceRotation(Registry.RandomInterfaceId(r)).Some?
    ensures DotPattern(Registry.RandomInterfaceId(r)).Some?
  {
  }

  /** The ticks an interval runs before it settles (`maxRolls`). */
  const MaxRolls: nat := 20

  /** The branch of the position update a tick takes. */
  datatype Motion = RollAcross | Bounce | Settle

  /** The motion of tick `count`: rolling across for ticks 1-10, bouncing for 11-15,
      settling afterwards. */
  function MotionAt(count: int): Motion
  {
    if count <= 10 then RollAcross else if count <= 15 then Bounce else Settle
  }

  /** The name displayed under the die: the rolled scene's, once the result is shown. */
  function ResultName(showResult: bool, rolledNumber: Option<int>): (r: Option<string>)
    ensures r.Some? <==> showResult && rolledNumber.Some? && 1 <= rolledNumber.value <= |Registry.Interfaces|
    ensures r.Some? ==> r.value == Registry.Interfaces[rolledNumber.value - 1].name
  {
    if showResult && rolledNumber.Some? && rolledNumber.value != 0 then
      Registry.GetInterfaceByIdResolves(rolledNumber.value);
      match Registry.GetInterfaceById(rolledNumber.value)
      case None => None
      case Some(i) => Some(i.name)
    else
      None
  }

  class Landing {
    const store: Store.Store
    /** Set when a roll starts and cleared at its last tick; the interval runs exactly
        while this holds. */
    var isRolling: bool
    var currentFace: Option<int>
    var rolledNumber: Option<int>
    var showResult: bool
    /** The running interval's captured counter. */
    var rollCount: nat
    /** The final numbers captured by the 600 ms timeouts not yet fired. */
    var pendingShow: seq<int>
    /** The final numbers captured by the 1500 ms timeouts not yet fired. */
    var pendingNav: seq<int>

    /** The counter stops at twenty, and every face, result and captured number is
        a die face. */
    ghost predicate Valid()
      reads this
    {
      && rollCount <= MaxRolls
      && (isRolling ==> rollCount < MaxRolls)
      && (currentFace.Some? ==> 1 <= currentFace.value <= 6)
      && (rolledNumber.Some? ==> 1 <= rolledNumber.value <= 6)
      && (forall k :: 0 <= k < |pendingShow| ==> 1 <= pendingShow[k] <= 6)
      && (forall k :: 0 <= k < |pendingNav| ==> 1 <= pendingNav[k] <= 6)
    }

    constructor (store: Store.Store)
      ensures Valid() && this.store == store
      ensures !isRolling && currentFace == None && rolledNumber == None && !showResult
      ensures rollCount == 0 && pendingShow == [] && pendingNav == []
    {
      this.store := store;
      isRolling := false;
      currentFace := None;
      rolledNumber := None;
      showResult := false;
      rollCount := 0;
      pendingShow := [];
      pendingNav := [];
    }

    /** `handleRoll`: ignored while rolling; otherwise hides the last result and
        starts a fresh interval. */
    method HandleRoll()
      requires Valid()
      modifies this
      ensures Valid()
      ensures old(isRolling) ==>
        && isRolling && rollCount == old(rollCount) && showResult == old(showResult)
        && rolledNumber == old(rolledNumber)
      ensures !old(isRolling) ==> isRolling && rollCount == 0 && !showResult && rolledNumber == None
      ensures currentFace == old(currentFace) && pendingShow == old(pendingShow) && pendingNav == old(pendingNav)
    {
      if isRolling {
        return;
      }
      isRolling := true;
      showResult := false;
      rolledNumber := None;
      rollCount := 0;
    }

    /** One interval tick, with the face draw `faceR` and, for the last tick, the
        scene draw `finalR`. The last tick stops the interval, shows and records the
        final number, and schedules the timeout that reveals it. */
    method Tick(faceR: real, finalR: real) returns (motion: Motion)
      requires Valid() && isRolling
      requires 0.0 <= faceR < 1.0 && 0.0 <= finalR < 1.0
      modifies this
      ensures Valid()
      ensures rollCount == old(rollCount) + 1 && motion == MotionAt(rollCount)
      ensures rollCount < MaxRolls ==>
        && isRolling && currentFace == Some(Die.FaceDraw(faceR))
        && rolledNumber == old(rolledNumber) && pendingShow == old(pendingShow)
      ensures rollCount == MaxRolls ==>
        && !isRolling
        && currentFace == Some(Registry.RandomInterfaceId(finalR))
        && rolledNumber == currentFace
        && pendingShow == old(pendingShow) + [Registry.RandomInterfaceId(finalR)]
      ensures showResult == old(showResult) && pendingNav == old(pendingNav)
    {
      currentFace := Some(Die.FaceDraw(faceR));
      rollCount := rollCount + 1;
      motion := MotionAt(rollCount);
      if rollCount >= MaxRolls {
        var finalNumber := Registry.RandomInterfaceId(finalR);
        currentFace := Some(finalNumber);
        rolledNumber := Some(finalNumber);
        isRolling := false;
        pendingShow := pendingShow + [finalNumber];
      }
    }

    /** The 600 ms timeout fires: the result is shown and navigation is scheduled
        with the same number. */
    method ShowTimeout()
      requires Valid() && pendingShow != []
      modifies this
      ensures Valid()
      ensures showResult
      ensures pendingNav == old(pendingNav) + [old(pendingShow)[0]] && pendingShow == old(pendingShow)[1..]
      ensures isRolling == old(isRolling) && rollCount == old(rollCount)
      ensures currentFace == old(currentFace) && rolledNumber == old(rolledNumber)
    {
      showResult := true;
      pendingNav := pendingNav + [pendingShow[0]];
      pendingShow := pendingShow[1..];
    }

    /** The 1500 ms timeout fires: the store enters the captured scene, as reached by
        the dice. */
    method NavTimeout()
      requires Valid() && pendingNav != []
      modifies this, store
      ensures Valid()
      ensures store.currentInterface == Some(old(pendingNav)[0]) && store.navigationSource == Store.Dice
      ensures store.visitedInterfaces == Store.Visit(old(store.visitedInterfaces), Some(old(pendingNav)[0]))
      ensures store.audioEnabled == old(store.audioEnabled) && store.isLoading == old(store.isLoading)
      ensures pendingNav == old(pendingNav)[1..] && pendingShow == old(pendingShow)
      ensures isRolling == old(isRolling) && rollCount == old(rollCount) && showResult == old(showResult)
      ensures currentFace == old(currentFace) && rolledNumber == old(rolledNumber)
    {
      var target := pendingNav[0];
      pendingNav := pendingNav[1..];
      store.SetInterface(Some(target), Store.Dice);
    }

    /** `handleSkip`: straight to the selection lobby, with no source. */
    method HandleSkip()
      modifies store
      ensures store.currentInterface == Some(-1) && store.navigationSource == Store.NoSource
      ensures store.visitedInterfaces == Store.Visit(old(store.visitedInterfaces), Some(-1))
      ensures store.audioEnabled == old(store.audioEnabled) && store.isLoading == old(store.isLoading)
    {
      store.SetInterface(Some(-1), Store.NoSource);
    }
  }

  /** Twenty ticks move the die across for ten, bounce it for five and settle it for
      the last five. */
  lemma MotionPhases(motions: seq<Motion>)
    requires |motions| == MaxRolls && forall k :: 0 <= k < |motions| ==> motions[k] == MotionAt(k + 1)
    ensures forall k :: 0 <= k < 10 ==> motions[k] == RollAcross
    ensures forall k :: 10 <= k < 15 ==> motions[k] == Bounce
    ensures forall k :: 15 <= k < 20 ==> motions[k] == Settle
  {
  }

  /** A whole roll from a fresh landing: twenty ticks, ten rolling across, five
      bouncing and five settling; the die settles on the scene drawn by `finalR`,
      shows its name, and the store enters exactly that scene, as reached by dice. */
  method RollToEnd(draws: seq<real>, finalR: real)
    returns (motions: seq<Motion>, finalFace: Option<int>, shown: Option<string>,
             screen: Option<int>, source: Store.NavigationSource)
    requires |draws| == MaxRolls && forall k :: 0 <= k < |draws| ==> 0.0 <= draws[k] < 1.0
    requires 0.0 <= finalR < 1.0
    ensures |motions| == MaxRolls
    ensures forall k :: 0 <= k < 10 ==> motions[k] == RollAcross
    ensures forall k :: 10 <= k < 15 ==> motions[k] == Bounce
    ensures forall k :: 15 <= k < 20 ==> motions[k] == Settle
    ensures finalFace == Some(Registry.RandomInterfaceId(finalR))
    ensures shown == ResultName(true, finalFace) && shown.Some?
    ensures screen == finalFace && source == Store.Dice
  {
    var s := new Store.Store();
    var d := new Landing(s);
    d.HandleRoll();
    motions := [];
    while d.isRolling
      invariant d.Valid() && d.store == s
      invariant |motions| == d.rollCount
      invariant forall k :: 0 <= k < |motions| ==> motions[k] == MotionAt(k + 1)
      invariant d.pendingNav == []
      invariant d.isRolling ==> d.pendingShow == []
      invariant !d.isRolling ==>
        && d.rollCount == MaxRolls
        && d.pendingShow == [Registry.RandomInterfaceId(finalR)]
        && d.currentFace == Some(Registry.RandomInterfaceId(finalR))
        && d.rolledNumber == d.currentFace
      decreases MaxRolls - d.rollCount
    {
      var m := d.Tick(draws[d.rollCount], finalR);
      motions := motions + [m];
    }
    MotionPhases(motions);
    d.ShowTimeout();
    finalFace := d.currentFace;
    shown := ResultName(d.showResult, d.rolledNumber);
    d.NavTimeout();
    screen := s.currentInterface;
    source := s.navigationSource;
  }

  /** Skip pressed while the die rolls: the lobby opens at once, but the roll's
      interval and timeouts are never cleared, so once they have run the store
      still enters the rolled scene, as reached by dice. */
  method SkipDuringRoll(draws: seq<real>, finalR: real)
    returns (lobby: Option<int>, screen: Option<int>, source: Store.NavigationSource, visited: seq<int>)
    requires |draws| == MaxRolls && forall k :: 0 <= k < |draws| ==> 0.0 <= draws[k] < 1.0
    requires 0.0 <= finalR < 1.0
    ensures lobby == Some(-1)
    ensures screen == Some(Registry.RandomInterfaceId(finalR)) && source == Store.Dice
    ensures visited == [-1, Registry.RandomInterfaceId(finalR)]
  {
    var s := new Store.Store();
    var d := new Landing(s);
    d.HandleRoll();
    d.HandleSkip();
    lobby := s.currentInterface;
    assert s.visitedInterfaces == [-1];
    while d.isRolling
      invariant d.Valid() && d.store == s
      invariant s.visitedInterfaces == [-1]
      invariant d.pendingNav == []
      invariant d.isRolling ==> d.pendingShow == []
      invariant !d.isRolling ==> d.pendingShow == [Registry.RandomInterfaceId(finalR)]
      decreases MaxRolls - d.rollCount
    {
      var _ := d.Tick(draws[d.rollCount], finalR);
    }
    d.ShowTimeout();
    d.NavTimeout();
    screen := s.currentInterface;
    source := s.navigationSource;
    visited := s.visitedInterfaces;
  }

  /** A second press while the die rolls is ignored: the running interval keeps its
      count. */
  method RollIgnoredWhileRolling(faceR: real, finalR: real) returns (count: nat, rolling: bool)
    requires 0.0 <= faceR < 1.0 && 0.0 <= finalR < 1.0
    ensures count == 1 && rolling
  {
    var s := new Store.Store();
    var d := new Landing(s);
    d.HandleRoll();
    var _ := d.Tick(faceR, finalR);
    d.HandleRoll();
    count := d.rollCount;
    rolling := d.isRolling;
  }

  /** Skipping from a fresh store opens the selection lobby and records `-1` as
      visited, since `-1` is truthy. */
  method SkipFromFresh() returns (screen: Option<int>, source: Store.NavigationSource, visited: seq<int>)
    ensures screen == Some(-1) && source == Store.NoSource && visited == [-1]
  {
    var s := new Store.Store();
    var d := new Landing(s);
    d.HandleSkip();
    screen := s.currentInterface;
    source := s.navigationSource;
    visited := s.visitedInterfaces;
  }
}
