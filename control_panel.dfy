/** One console of src/components/interfaces/ControlRoom/Panel.tsx: clicking the panel
    switches it on and off, an interval drives its five VU bars while it is on, and
    its launch button opens a live project. The draws of `Math.random()` are
    parameters and the interval tick is an event method. */
module ControlPanel {
  import opened Wrappers
  import Catalog

  /** The VU bars at rest. */
  const Zeros: seq<real> := [0.0, 0.0, 0.0, 0.0, 0.0]

  /** The launch button's state. */
  datatype LaunchButton = LaunchButton(disabled: bool, caption: string)

  /** Enabled only for a live project on an active panel; the caption says which of
      the two is missing. */
  function LaunchButtonFor(status: Catalog.Status, isActive: bool): (b: LaunchButton)
    ensures b.disabled <==> status != Catalog.Live || !isActive
    ensures b.caption == "Launch" <==> !b.disabled
    ensures b.caption == "Activate First" <==> status == Catalog.Live && !isActive
    ensures b.caption == "Coming Soon" <==> status != Catalog.Live
  {
    LaunchButton(status != Catalog.Live || !isActive,
                 if status == Catalog.Live then (if isActive then "Launch" else "Activate First")
                 else "Coming Soon")
  }

  /** The rendered height of each bar, in percent: its level while active, 10 when
      idle. */
  function BarHeights(isActive: bool, levels: seq<real>): (r: seq<real>)
    ensures |r| == |levels|
    ensures forall i :: 0 <= i < |r| ==> r[i] == (if isActive then levels[i] else 10.0)
  {
    seq(|levels|, i requires 0 <= i < |levels| => if isActive then levels[i] else 10.0)
  }

  class Panel {
    const project: Catalog.Project
    var isActive: bool
    var vuLevels: seq<real>

    /** Five bars, all at rest while the panel is off, and never above 80. */
    ghost predicate Valid()
      reads this
    {
      && |vuLevels| == 5
      && (!isActive ==> vuLevels == Zeros)
      && (forall i :: 0 <= i < |vuLevels| ==> 0.0 <= vuLevels[i] < 80.0)
    }

    constructor (project: Catalog.Project)
      ensures Valid() && this.project == project && !isActive && vuLevels == Zeros
    {
      this.project := project;
      isActive := false;
      vuLevels := Zeros;
    }

    /** `handleClick`: toggle the panel; switching it off resets the bars (the effect
        that runs on the change of `isActive`). */
    method HandleClick()
      requires Valid()
      modifies this
      ensures Valid()
      ensures isActive == !old(isActive)
      ensures !isActive ==> vuLevels == Zeros
      ensures isActive ==> vuLevels == old(vuLevels)
    {
      isActive := !isActive;
      if !isActive {
        vuLevels := Zeros;
      }
    }

    /** One interval tick while active: each of the five bars gets `20 + r * 60` for
        its own draw `r`. */
    method VuTick(draws: seq<real>)
      requires Valid() && isActive
      requires |draws| == 5 && forall i :: 0 <= i < |draws| ==> 0.0 <= draws[i] < 1.0
      modifies this
      ensures Valid() && isActive
      ensures |vuLevels| == 5
      ensures forall i :: 0 <= i < 5 ==> vuLevels[i] == 20.0 + draws[i] * 60.0
      ensures forall i :: 0 <= i < 5 ==> 20.0 <= vuLevels[i] < 80.0
    {
      vuLevels := seq(5, i requires 0 <= i < 5 => 20.0 + draws[i] * 60.0);
    }

    /** `handleLaunch`: the url to open, given only for a live project. The click
        does not reach the panel, so the panel stays as it is. */
    method HandleLaunch() returns (launched: Option<string>)
      ensures launched.Some? <==> project.status == Catalog.Live
      ensures launched.Some? ==> launched.value == project.url
    {
      launched := if project.status == Catalog.Live then Some(project.url) else None;
    }

    /** A press on the launch button: a disabled button delivers no click, an enabled
        one runs `handleLaunch`. So a url opens only from an active panel of a live
        project. */
    method PressLaunch() returns (launched: Option<string>)
      ensures launched.Some? <==> project.status == Catalog.Live && isActive
      ensures launched.Some? ==> launched.value == project.url
    {
      if LaunchButtonFor(project.status, isActive).disabled {
        launched := None;
      } else {
        launched := HandleLaunch();
      }
    }
  }

  /** On LokiTunes' panel launching first asks for activation; after a click on the
      panel it opens, and the panel stays on. */
  method ActivateThenLaunch() returns (before: Option<string>, caption: string, after: Option<string>, active: bool)
    ensures before == None && caption == "Activate First"
    ensures after == Some("https://lokitunes.art") && active
  {
    var p := new Panel(Catalog.LokiTunes);
    before := p.PressLaunch();
    caption := LaunchButtonFor(p.project.status, p.isActive).caption;
    p.HandleClick();
    after := p.PressLaunch();
    active := p.isActive;
  }

  /** The podcast panel never launches, active or not. */
  method ComingSoonNeverLaunches() returns (idle: Option<string>, activeLaunch: Option<string>, caption: string)
    ensures idle == None && activeLaunch == None && caption == "Coming Soon"
  {
    var p := new Panel(Catalog.Podcast);
    idle := p.PressLaunch();
    p.HandleClick();
    activeLaunch := p.PressLaunch();
    caption := LaunchButtonFor(p.project.status, p.isActive).caption;
  }

  /** Switching a panel off after the bars moved puts them back to rest, and they
      render at 10 percent. */
  method SwitchOffResets(project: Catalog.Project, draws: seq<real>) returns (levels: seq<real>, heights: seq<real>)
    requires |draws| == 5 && forall i :: 0 <= i < |draws| ==> 0.0 <= draws[i] < 1.0
    ensures levels == Zeros
    ensures heights == [10.0, 10.0, 10.0, 10.0, 10.0]
  {
    var p := new Panel(project);
    p.HandleClick();
    p.VuTick(draws);
    p.HandleClick();
    levels := p.vuLevels;
    heights := BarHeights(p.isActive, p.vuLevels);
  }
}
