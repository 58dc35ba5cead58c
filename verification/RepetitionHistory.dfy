/** What the advisor's verdicts mean in terms of the scenes entered so far. */
module RepetitionHistory {
  import opened Options
  import opened Scenes
  import opened CompanionMemory

  datatype Entered = Entered(scene: Scene, game: Option<string>, at: real)

  function EntryOf(e: Entered): Entry {
    Entry(e.scene, KeyFor(e.scene, e.game), e.at)
  }

  function Entries(history: seq<Entered>): (entries: seq<Entry>)
    ensures |entries| == |history|
    ensures forall i :: 0 <= i < |history| ==> entries[i] == EntryOf(history[i])
  {
    seq(|history|, i requires 0 <= i < |history| => EntryOf(history[i]))
  }

  /** The memory after recording a history, oldest entry first. */
  function Recall(m: Memory, limits: Limits, history: seq<Entered>): Memory {
    if history == [] then m
    else
      var last := history[|history| - 1];
      Record(Recall(m, limits, history[..|history| - 1]), limits, last.scene, last.game, last.at)
  }

  function Newest<T>(xs: seq<T>, n: nat): seq<T> {
    if |xs| > n then xs[|xs| - n..] else xs
  }

  /** The victories and defeats among the entered scenes, in order. */
  function Outcomes(history: seq<Entered>): seq<Scene> {
    if history == [] then []
    else
      var earlier, last := Outcomes(history[..|history| - 1]), history[|history| - 1].scene;
      if last == VictoryAfterglow || last == DefeatRegroup then earlier + [last] else earlier
  }

  /** How often `kind` was entered last without the other outcome in between. */
  function Streak(outcomes: seq<Scene>, kind: Scene): nat {
    if outcomes != [] && outcomes[|outcomes| - 1] == kind then 1 + Streak(outcomes[..|outcomes| - 1], kind) else 0
  }

  ghost predicate LastAre(outcomes: seq<Scene>, n: nat, kind: Scene) {
    n <= |outcomes| && forall i :: |outcomes| - n <= i < |outcomes| ==> outcomes[i] == kind
  }

  ghost predicate Fresh(m: Memory) {
    m.ring == [] && m.victories == 0 && m.defeats == 0
  }

  lemma {:induction false} StreakReaches(outcomes: seq<Scene>, n: nat, kind: Scene)
    ensures Streak(outcomes, kind) >= n <==> LastAre(outcomes, n, kind)
  {
    if n > 0 && outcomes != [] && outcomes[|outcomes| - 1] == kind {
      var before := outcomes[..|outcomes| - 1];
      StreakReaches(before, n - 1, kind);
      if LastAre(before, n - 1, kind) {
        forall i | |outcomes| - n <= i < |outcomes| ensures outcomes[i] == kind {
          assert i < |before| ==> before[i] == outcomes[i];
        }
      }
      if LastAre(outcomes, n, kind) {
        forall i | |before| - (n - 1) <= i < |before| ensures before[i] == kind {
          assert before[i] == outcomes[i];
        }
      }
    }
  }

  lemma RecordPushes(m: Memory, limits: Limits, e: Entered)
    ensures Record(m, limits, e.scene, e.game, e.at).ring == Push(m.ring, EntryOf(e), limits.capacity)
  {
  }

  lemma EntriesGrow(history: seq<Entered>)
    requires history != []
    ensures Entries(history) == Entries(history[..|history| - 1]) + [EntryOf(history[|history| - 1])]
  {
  }

  /** The bounded ring holds the newest entries of the full history. */
  lemma {:induction false} RingHoldsNewest(m: Memory, limits: Limits, history: seq<Entered>)
    requires Fresh(m)
    ensures Recall(m, limits, history).ring == Newest(Entries(history), limits.capacity)
  {
    if history == [] {
      assert Entries(history) == [];
    } else {
      var before, last := history[..|history| - 1], history[|history| - 1];
      RingHoldsNewest(m, limits, before);
      EntriesGrow(history);
      RecordPushes(Recall(m, limits, before), limits, last);
      PushKeepsNewest(Entries(before), EntryOf(last), limits.capacity);
    }
  }

  lemma PushKeepsNewest(all: seq<Entry>, entry: Entry, capacity: nat)
    ensures Push(Newest(all, capacity), entry, capacity) == Newest(all + [entry], capacity)
  {
  }

  /** The two counters are the trailing streaks of the outcome history. */
  lemma {:induction false} CountersAreStreaks(m: Memory, limits: Limits, history: seq<Entered>)
    requires Fresh(m)
    ensures Recall(m, limits, history).victories == Streak(Outcomes(history), VictoryAfterglow)
    ensures Recall(m, limits, history).defeats == Streak(Outcomes(history), DefeatRegroup)
  {
    if history != [] {
      var before, last := history[..|history| - 1], history[|history| - 1];
      CountersAreStreaks(m, limits, before);
      StreakExtends(Outcomes(before), last.scene, VictoryAfterglow);
      StreakExtends(Outcomes(before), last.scene, DefeatRegroup);
      RecordCounters(Recall(m, limits, before), limits, last.scene, last.game, last.at);
    }
  }

  lemma RecordCounters(m: Memory, limits: Limits, scene: Scene, game: Option<string>, at: real)
    ensures var after := Record(m, limits, scene, game, at);
            && after.victories == (if scene == VictoryAfterglow then m.victories + 1
                                   else if scene == DefeatRegroup then 0 else m.victories)
            && after.defeats == (if scene == DefeatRegroup then m.defeats + 1
                                 else if scene == VictoryAfterglow then 0 else m.defeats)
  {
  }

  lemma StreakExtends(outcomes: seq<Scene>, scene: Scene, kind: Scene)
    ensures Streak(outcomes + [scene], kind) == if scene == kind then Streak(outcomes, kind) + 1 else 0
  {
    assert (outcomes + [scene])[..|outcomes|] == outcomes;
  }

  /** A victory and a defeat streak are never running at the same time. */
  lemma StreaksExcludeEachOther(m: Memory, limits: Limits, history: seq<Entered>)
    requires Fresh(m)
    ensures var after := Recall(m, limits, history); after.victories == 0 || after.defeats == 0
  {
    CountersAreStreaks(m, limits, history);
  }

  /** A victory is a repetition exactly when the last three outcomes were victories. */
  lemma VictoryRepeatsExactly(m: Memory, limits: Limits, history: seq<Entered>, game: Option<string>, now: real)
    requires Fresh(m)
    ensures Repeats(Recall(m, limits, history), limits, VictoryAfterglow, game, now)
            <==> LastAre(Outcomes(history), 3, VictoryAfterglow)
  {
    CountersAreStreaks(m, limits, history);
    StreakReaches(Outcomes(history), 3, VictoryAfterglow);
  }

  // ---- The key of an entry identifies its scene and game ----

  lemma PrefixBeforeColon(a: string, b: string, x: string, y: string)
    requires ':' !in a && ':' !in b && a + ":" + x == b + ":" + y
    ensures a == b && x == y
  {
    var s := a + ":" + x;
    assert s == b + ":" + y && s[|a|] == ':' && s[|b|] == ':';
    assert forall i :: 0 <= i < |a| ==> s[i] == a[i];
    assert forall i :: 0 <= i < |b| ==> s[i] == b[i];
    assert |a| == |b|;
    assert s[..|a|] == a && s[..|b|] == b;
    assert s[|a| + 1..] == x && s[|b| + 1..] == y;
  }

  lemma KeyIdentifies(scene: Scene, game: Option<string>, scene': Scene, game': Option<string>)
    ensures KeyFor(scene, game) == KeyFor(scene', game') <==> scene == scene' && Label(game) == Label(game')
  {
    if KeyFor(scene, game) == KeyFor(scene', game') {
      PrefixBeforeColon(SceneValue(scene), SceneValue(scene'), Label(game), Label(game'));
      SceneValueInjective(scene, scene');
    }
  }

  lemma SceneValueInjective(a: Scene, b: Scene)
    requires SceneValue(a) == SceneValue(b)
    ensures a == b
  {
    var s, t := SceneValue(a), SceneValue(b);
    assert |s| == |t| && s[0] == t[0] && s[|s| - 1] == t[|t| - 1];
  }

  /** Positions among the newest `limits.capacity` entries where this scene was entered in the
      same game no earlier than the window. */
  ghost function RecentEntries(history: seq<Entered>, limits: Limits, scene: Scene, game: Option<string>, now: real)
    : set<int>
  {
    set i | |history| - limits.capacity <= i < |history| && 0 <= i && history[i].scene == scene
            && Label(history[i].game) == Label(game) && history[i].at >= now - limits.window
  }

  ghost function Matching(ring: seq<Entry>, from: nat, key: string, cutoff: real): set<int> {
    set i | from <= i < |ring| && ring[i].key == key && ring[i].at >= cutoff
  }

  lemma {:induction false} CountIsCardinality(ring: seq<Entry>, from: nat, key: string, cutoff: real)
    requires from <= |ring|
    ensures CountSince(ring[from..], key, cutoff) == |Matching(ring, from, key, cutoff)|
    decreases |ring| - from
  {
    var here := Matching(ring, from, key, cutoff);
    if from < |ring| {
      CountIsCardinality(ring, from + 1, key, cutoff);
      assert ring[from..][1..] == ring[from + 1..];
      var later := Matching(ring, from + 1, key, cutoff);
      assert here == if from in here then later + {from} else later;
    } else {
      assert here == {};
    }
  }

  /** Among the recorded entries, those under a key are those of its scene and game. */
  lemma SameKeySameScene(history: seq<Entered>, i: nat, scene: Scene, game: Option<string>)
    requires i < |history|
    ensures Entries(history)[i].key == KeyFor(scene, game)
            <==> history[i].scene == scene && Label(history[i].game) == Label(game)
    ensures Entries(history)[i].at == history[i].at
  {
    KeyIdentifies(history[i].scene, history[i].game, scene, game);
  }

  /** Where the newest entries of a log of this length start. */
  function RingStart(length: nat, capacity: nat): nat {
    if length > capacity then length - capacity else 0
  }

  lemma MatchingAreRecent(history: seq<Entered>, limits: Limits, scene: Scene, game: Option<string>, now: real)
    ensures Matching(Entries(history), RingStart(|history|, limits.capacity), KeyFor(scene, game), now - limits.window)
            == RecentEntries(history, limits, scene, game, now)
  {
    var ring, key := Entries(history), KeyFor(scene, game);
    forall i: int
      ensures i in Matching(ring, RingStart(|history|, limits.capacity), key, now - limits.window)
              <==> i in RecentEntries(history, limits, scene, game, now)
    {
      if 0 <= i < |history| {
        SameKeySameScene(history, i, scene, game);
      }
    }
  }

  lemma CountInNewest(all: seq<Entry>, capacity: nat, key: string, cutoff: real)
    ensures CountSince(Newest(all, capacity), key, cutoff)
            == |Matching(all, RingStart(|all|, capacity), key, cutoff)|
  {
    CountIsCardinality(all, RingStart(|all|, capacity), key, cutoff);
    assert all[0..] == all;
  }

  lemma CountsRecentEntries(history: seq<Entered>, limits: Limits, scene: Scene, game: Option<string>, now: real)
    ensures CountSince(Newest(Entries(history), limits.capacity), KeyFor(scene, game), now - limits.window)
            == |RecentEntries(history, limits, scene, game, now)|
  {
    CountInNewest(Entries(history), limits.capacity, KeyFor(scene, game), now - limits.window);
    MatchingAreRecent(history, limits, scene, game, now);
  }

  lemma RepeatingCountsRecentEntries(after: Memory, limits: Limits, history: seq<Entered>, scene: Scene,
                                     game: Option<string>, now: real)
    requires after.ring == Newest(Entries(history), limits.capacity)
    ensures IsRepeating(after, limits, scene, game, now)
            <==> |RecentEntries(history, limits, scene, game, now)| >= limits.threshold
  {
    CountsRecentEntries(history, limits, scene, game, now);
  }

  /** A defeat is a repetition exactly when the last two outcomes were defeats, or enough
      defeats in the same game lie in the ring and the window. */
  lemma DefeatRepeatsExactly(m: Memory, limits: Limits, history: seq<Entered>, game: Option<string>, now: real)
    requires Fresh(m)
    ensures Repeats(Recall(m, limits, history), limits, DefeatRegroup, game, now)
            <==> || LastAre(Outcomes(history), 2, DefeatRegroup)
                 || |RecentEntries(history, limits, DefeatRegroup, game, now)| >= limits.threshold
  {
    CountersAreStreaks(m, limits, history);
    StreakReaches(Outcomes(history), 2, DefeatRegroup);
    RingHoldsNewest(m, limits, history);
    RepeatingCountsRecentEntries(Recall(m, limits, history), limits, history, DefeatRegroup, game, now);
  }

  function WarmingsOf(history: seq<Entered>, name: string): nat {
    if history == [] then 0
    else
      var last := history[|history| - 1];
      WarmingsOf(history[..|history| - 1], name)
      + (if last.scene == GameWarming && last.game == Some(name) then 1 else 0)
  }

  /** A named game's counter grows by one for every time its warming-up was entered. */
  lemma {:induction false} GamesPlayedCountsWarmings(m: Memory, limits: Limits, history: seq<Entered>, name: string)
    ensures GamesPlayed(Recall(m, limits, history), name)
            == GamesPlayed(m, name) + if name == "" then 0 else WarmingsOf(history, name)
  {
    if history != [] {
      GamesPlayedCountsWarmings(m, limits, history[..|history| - 1], name);
    }
  }

  /** What a repetition is, in terms of the scenes entered so far, this one included. */
  ghost predicate IsRepetition(blank: Memory, limits: Limits, history: seq<Entered>, scene: Scene, game: Option<string>,
                               now: real)
  {
    match scene
    case VictoryAfterglow => LastAre(Outcomes(history), 3, VictoryAfterglow)
    case DefeatRegroup =>
      || LastAre(Outcomes(history), 2, DefeatRegroup)
      || |RecentEntries(history, limits, DefeatRegroup, game, now)| >= limits.threshold
    case Boss => |RecentEntries(history, limits, Boss, game, now)| >= limits.threshold
    case GameWarming =>
      game.Some? && game.value != "" && GamesPlayed(blank, game.value) + WarmingsOf(history, game.value) >= 5
    case _ => false
  }

  /** The advisor reports exactly the repetitions of the history, for every scene. */
  lemma VerdictsFollowHistory(blank: Memory, limits: Limits, history: seq<Entered>, scene: Scene, game: Option<string>,
                              now: real)
    requires Fresh(blank)
    ensures Repeats(Recall(blank, limits, history), limits, scene, game, now)
            <==> IsRepetition(blank, limits, history, scene, game, now)
  {
    match scene {
      case VictoryAfterglow => VictoryRepeatsExactly(blank, limits, history, game, now);
      case DefeatRegroup => DefeatRepeatsExactly(blank, limits, history, game, now);
      case Boss =>
        RingHoldsNewest(blank, limits, history);
        RepeatingCountsRecentEntries(Recall(blank, limits, history), limits, history, Boss, game, now);
      case GameWarming =>
        if Playing(game) {
          GamesPlayedCountsWarmings(blank, limits, history, game.value);
        }
      case _ =>
    }
  }

  /** At the shipped limits a boss fight is a repetition exactly when it is the third in this game within half an
      hour, among the last fifty scenes entered. */
  lemma {:induction false} ShippedBossRepeats(blank: Memory, history: seq<Entered>, game: Option<string>, now: real,
                                              fights: set<int>)
    requires Fresh(blank)
    requires fights == set i | |history| - 50 <= i < |history| && 0 <= i && history[i].scene == Boss
                               && Label(history[i].game) == Label(game) && history[i].at >= now - 1800.0
    ensures Repeats(Recall(blank, DEFAULT_LIMITS, history), DEFAULT_LIMITS, Boss, game, now) <==> |fights| >= 3
  {
    VerdictsFollowHistory(blank, DEFAULT_LIMITS, history, Boss, game, now);
    assert fights == RecentEntries(history, DEFAULT_LIMITS, Boss, game, now);
  }

  /** A game without a name counts as the unknown one. */
  lemma LabelsAre(game: Option<string>)
    ensures game == None || game == Some("") ==> Label(game) == "unknown"
    ensures game.Some? && game.value != "" ==> Label(game) == game.value
  {
  }

  /** The game entered last, if it has a name; otherwise the one remembered before. */
  function LastWarmed(history: seq<Entered>, before: Option<string>): Option<string> {
    if history == [] then before
    else
      var last := history[|history| - 1];
      if last.scene == GameWarming && last.game.Some? && last.game.value != "" then last.game
      else LastWarmed(history[..|history| - 1], before)
  }

  lemma {:induction false} LastKnownIsLastWarmed(m: Memory, limits: Limits, history: seq<Entered>)
    ensures Recall(m, limits, history).lastKnown == LastWarmed(history, m.lastKnown)
  {
    if history != [] {
      LastKnownIsLastWarmed(m, limits, history[..|history| - 1]);
    }
  }
}
