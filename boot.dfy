/** The start-up screen of src/components/interfaces/RetroOS/BootSequence.tsx: an
    interval reveals the BIOS lines one per tick, then a logo is shown, then the
    desktop is told the boot is complete. The interval tick and the two timeouts are
    explicit event methods. */
module BootSequence {

  /** The text revealed during the BIOS phase, one entry per tick. */
  const BootLines: seq<string> := [
    "POLY-BIOS (C) 2025 Poly-Interface Systems, Inc.",
    "BIOS Date: 12/02/25  Ver: 95.0",
    "",
    "Checking RAM... 640K OK",
    "Checking Extended Memory... 4096K OK",
    "",
    "Detecting Primary IDE Master... POLY_CREATIVE_HDD",
    "Detecting Primary IDE Slave... None",
    "",
    "Loading POLY-DOS...",
    "",
    "Starting Poly-Interface Portal 95..."
  ]

  datatype Phase = Bios | Logo | Done

  /** The position of a phase in the boot order. */
  function Rank(p: Phase): nat
  {
    match p
    case Bios => 0
    case Logo => 1
    case Done => 2
  }

  /** The boot screen is rendered while the phase is not `done`. */
  predicate ShowBootScreen(p: Phase)
  {
    p != Done
  }

  class Boot {
    var phase: Phase
    var visibleLines: seq<string>
    /** The interval callback's captured counter. */
    var lineIndex: nat
    var intervalRunning: bool
    /** The 500 ms timeout that moves to the logo has been scheduled and not fired. */
    var logoPending: bool
    /** The 2 s timeout that finishes the boot has been scheduled and not fired. */
    var donePending: bool
    /** How many times `onComplete` has been called. */
    var completions: nat

    /** The revealed lines are always the first `lineIndex` boot lines; each phase
        has exactly the timers the effects schedule for it, and `onComplete` has been
        called once exactly when the phase is `done`. */
    ghost predicate Valid()
      reads this
    {
      && lineIndex <= |BootLines|
      && visibleLines == BootLines[..lineIndex]
      && (phase == Bios ==> (intervalRunning || logoPending) && !donePending && completions == 0)
      && (intervalRunning ==> phase == Bios && !logoPending)
      && (logoPending ==> phase == Bios && lineIndex == |BootLines|)
      && (phase == Logo ==>
            lineIndex == |BootLines| && !intervalRunning && !logoPending && donePending && completions == 0)
      && (phase == Done ==>
            lineIndex == |BootLines| && !intervalRunning && !logoPending && !donePending && completions == 1)
    }

    /** Mounting: phase `bios`, nothing shown, and the BIOS effect starts the interval. */
    constructor ()
      ensures Valid()
      ensures phase == Bios && visibleLines == [] && lineIndex == 0 && intervalRunning
      ensures !logoPending && !donePending && completions == 0
    {
      phase := Bios;
      visibleLines := [];
      lineIndex := 0;
      intervalRunning := true;
      logoPending := false;
      donePending := false;
      completions := 0;
    }

    /** One interval tick: reveal the next line, or, once all are shown, stop the
        interval and schedule the logo. */
    method Tick()
      requires Valid() && intervalRunning
      modifies this
      ensures Valid()
      ensures phase == Bios && completions == old(completions) && !donePending
      ensures old(lineIndex) < |BootLines| ==>
        && lineIndex == old(lineIndex) + 1
        && visibleLines == old(visibleLines) + [BootLines[old(lineIndex)]]
        && intervalRunning && !logoPending
      ensures old(lineIndex) == |BootLines| ==>
        && lineIndex == old(lineIndex) && visibleLines == old(visibleLines)
        && !intervalRunning && logoPending
    {
      if lineIndex < |BootLines| {
        visibleLines := visibleLines + [BootLines[lineIndex]];
        lineIndex := lineIndex + 1;
      } else {
        intervalRunning := false;
        logoPending := true;
      }
    }

    /** The 500 ms timeout fires: the logo phase begins and its own timer is set. */
    method LogoTimeout()
      requires Valid() && logoPending
      modifies this
      ensures Valid()
      ensures Rank(old(phase)) < Rank(phase)
      ensures phase == Logo && donePending && !logoPending && !intervalRunning
      ensures visibleLines == old(visibleLines) && lineIndex == old(lineIndex)
      ensures completions == old(completions)
    {
      phase := Logo;
      logoPending := false;
      donePending := true;
    }

    /** The 2 s timeout fires: the phase becomes `done` and `onComplete` is called. */
    method DoneTimeout()
      requires Valid() && donePending
      modifies this
      ensures Valid()
      ensures Rank(old(phase)) < Rank(phase)
      ensures phase == Done && !donePending && !ShowBootScreen(phase)
      ensures completions == old(completions) + 1 == 1
      ensures visibleLines == old(visibleLines) && lineIndex == old(lineIndex)
    {
      phase := Done;
      donePending := false;
      completions := completions + 1;
    }
  }

  /** Running the interval until it stops, then both timeouts: thirteen ticks (twelve
      reveals and the one that stops the interval), every line shown in order,
      `onComplete` called exactly once and the boot screen gone. */
  method BootToCompletion() returns (ticks: nat, lines: seq<string>, phase: Phase, completions: nat)
    ensures ticks == |BootLines| + 1
    ensures lines == BootLines
    ensures phase == Done && !ShowBootScreen(phase) && completions == 1
  {
    var b := new Boot();
    ticks := 0;
    while b.intervalRunning
      invariant b.Valid() && b.phase == Bios
      invariant b.intervalRunning ==> ticks == b.lineIndex
      invariant !b.intervalRunning ==> ticks == |BootLines| + 1 && b.logoPending
      decreases |BootLines| + 1 - ticks
    {
      b.Tick();
      ticks := ticks + 1;
    }
    b.LogoTimeout();
    b.DoneTimeout();
    lines := b.visibleLines;
    phase := b.phase;
    completions := b.completions;
  }
}
