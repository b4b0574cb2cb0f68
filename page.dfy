/** The home page: the interaction statistics every component reports into, the clock that
    fills in the time spent, the tab bar and the hero button that opens the modal. */
module HomePage {
  datatype UserStats = UserStats(clicks: nat, interactions: nat, timeSpent: nat)

  const Zero := UserStats(0, 0, 0)

  const TabIds: seq<string> := ["overview", "interactive", "data", "chat"]

  /** `handleInteraction`: one more interaction, and one more click when the type is "click". */
  function HandleInteraction(prev: UserStats, kind: string): (next: UserStats)
    ensures next.interactions == prev.interactions + 1
    ensures next.clicks == prev.clicks + 1 <==> kind == "click"
    ensures kind != "click" ==> next.clicks == prev.clicks
    ensures next.timeSpent == prev.timeSpent
  {
    prev.(interactions := prev.interactions + 1,
          clicks := if kind == "click" then prev.clicks + 1 else prev.clicks)
  }

  /** The one-second timer: whole seconds since the page mounted, with the clock reading as
      milliseconds elapsed since then. */
  function TimerTick(prev: UserStats, elapsedMs: nat): (next: UserStats)
    ensures next.clicks == prev.clicks && next.interactions == prev.interactions
    ensures next.timeSpent * 1000 <= elapsedMs < (next.timeSpent + 1) * 1000
  {
    prev.(timeSpent := elapsedMs / 1000)
  }

  /** Everything that updates the statistics. */
  datatype StatsEvent = Interaction(kind: string) | Timer(elapsedMs: nat)

  function Apply(stats: UserStats, e: StatsEvent): UserStats {
    match e
    case Interaction(kind) => HandleInteraction(stats, kind)
    case Timer(ms) => TimerTick(stats, ms)
  }

  function Replay(stats: UserStats, events: seq<StatsEvent>): UserStats
    decreases |events|
  {
    if events == [] then stats else Replay(Apply(stats, events[0]), events[1..])
  }

  /** How many of the events are interactions, and how many of those are clicks. */
  function InteractionCount(events: seq<StatsEvent>): nat {
    if events == [] then 0 else (if events[0].Interaction? then 1 else 0) + InteractionCount(events[1..])
  }

  function ClickCount(events: seq<StatsEvent>): nat {
    if events == [] then 0
    else (if events[0] == Interaction("click") then 1 else 0) + ClickCount(events[1..])
  }

  /** Replaying events adds exactly the interactions and clicks among them. */
  lemma {:induction false} ReplayCounts(stats: UserStats, events: seq<StatsEvent>)
    ensures Replay(stats, events).interactions == stats.interactions + InteractionCount(events)
    ensures Replay(stats, events).clicks == stats.clicks + ClickCount(events)
    decreases |events|
  {
    if events != [] {
      ReplayCounts(Apply(stats, events[0]), events[1..]);
    }
  }

  lemma {:induction false} ClicksAreInteractions(events: seq<StatsEvent>)
    ensures ClickCount(events) <= InteractionCount(events)
  {
    if events != [] {
      ClicksAreInteractions(events[1..]);
    }
  }

  /** From the initial zeros, no sequence of interactions and timer ticks ever shows more clicks
      than interactions. */
  lemma ClicksNeverExceedInteractions(events: seq<StatsEvent>)
    ensures Replay(Zero, events).clicks <= Replay(Zero, events).interactions
  {
    ReplayCounts(Zero, events);
    ClicksAreInteractions(events);
  }

  /** The page's own state. */
  class Home {
    var isModalOpen: bool
    var activeTab: string
    var userStats: UserStats

    constructor ()
      ensures !isModalOpen && activeTab == "overview" && userStats == Zero
    {
      isModalOpen, activeTab, userStats := false, "overview", Zero;
    }

    /** The callback every component reports into. */
    method OnInteraction(kind: string)
      modifies this
      ensures userStats == HandleInteraction(old(userStats), kind)
      ensures activeTab == old(activeTab) && isModalOpen == old(isModalOpen)
    {
      userStats := HandleInteraction(userStats, kind);
    }

    method OnTimer(elapsedMs: nat)
      modifies this
      ensures userStats == TimerTick(old(userStats), elapsedMs)
      ensures activeTab == old(activeTab) && isModalOpen == old(isModalOpen)
    {
      userStats := TimerTick(userStats, elapsedMs);
    }

    /** A tab button: that tab becomes active and a "tab-switch" interaction, not a click, is
        counted. */
    method SelectTab(tab: string)
      requires tab in TabIds
      modifies this
      ensures activeTab == tab && isModalOpen == old(isModalOpen)
      ensures userStats == HandleInteraction(old(userStats), "tab-switch")
      ensures userStats.clicks == old(userStats.clicks)
    {
      activeTab := tab;
      OnInteraction("tab-switch");
    }

    /** "Explore Features": opens the modal and counts a click. */
    method ExploreFeatures()
      modifies this
      ensures isModalOpen && activeTab == old(activeTab)
      ensures userStats == HandleInteraction(old(userStats), "click")
      ensures userStats.clicks == old(userStats.clicks) + 1
    {
      isModalOpen := true;
      OnInteraction("click");
    }

    /** The modal's `onClose`. */
    method CloseModal()
      modifies this
      ensures !isModalOpen && activeTab == old(activeTab) && userStats == old(userStats)
    {
      isModalOpen := false;
    }
  }
}
