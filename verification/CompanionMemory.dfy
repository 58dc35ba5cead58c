/** The companion's two memories and the advisor that reads them. */
module CompanionMemory {
  import opened Options
  import opened Scenes

  const REPEAT_VICTORY_STREAK := 3
  const REPEAT_DEFEAT_STREAK := 2
  const HEAVY_GAME_THRESHOLD := 5

  function SceneValue(scene: Scene): string {
    match scene
    case Idle => "idle"
    case GameWarming => "game_warming"
    case GameActive => "game_active"
    case Combat => "combat"
    case Boss => "boss"
    case VictoryAfterglow => "victory_afterglow"
    case DefeatRegroup => "defeat_regroup"
    case Afk => "afk"
    case Homecoming => "homecoming"
  }

  function Label(game: Option<string>): string {
    if Playing(game) then game.value else "unknown"
  }

  function KeyFor(scene: Scene, game: Option<string>): string {
    SceneValue(scene) + ":" + Label(game)
  }

  datatype Entry = Entry(scene: Scene, key: string, at: real)

  /** Appending to a deque with a maximal length drops from the left. */
  function Push(ring: seq<Entry>, entry: Entry, capacity: nat): seq<Entry> {
    var longer := ring + [entry];
    if |longer| > capacity then longer[|longer| - capacity..] else longer
  }

  function CountSince(ring: seq<Entry>, key: string, cutoff: real): nat {
    if ring == [] then 0
    else (if ring[0].key == key && ring[0].at >= cutoff then 1 else 0) + CountSince(ring[1..], key, cutoff)
  }

  datatype Limits = Limits(capacity: nat, threshold: int, window: real)

  const DEFAULT_LIMITS := Limits(50, 3, 1800.0)

  datatype Memory = Memory(
    ring: seq<Entry>,
    games: map<string, int>,
    lastKnown: Option<string>,
    victories: int,
    defeats: int)

  function GamesPlayed(m: Memory, name: string): int {
    if name in m.games then m.games[name] else 0
  }

  /** What recording the entry of a scene does to the two memories. */
  function Record(m: Memory, limits: Limits, scene: Scene, game: Option<string>, at: real): Memory {
    var m1 := m.(ring := Push(m.ring, Entry(scene, KeyFor(scene, game), at), limits.capacity));
    if scene == GameWarming && Playing(game) then
      m1.(games := m1.games[game.value := GamesPlayed(m1, game.value) + 1], lastKnown := game)
    else if scene == VictoryAfterglow then m1.(defeats := 0, victories := m1.victories + 1)
    else if scene == DefeatRegroup then m1.(victories := 0, defeats := m1.defeats + 1)
    else m1
  }

  predicate IsRepeating(m: Memory, limits: Limits, scene: Scene, game: Option<string>, now: real) {
    CountSince(m.ring, KeyFor(scene, game), now - limits.window) >= limits.threshold
  }

  /** The advisor's verdict on a scene that has just been entered. */
  predicate Repeats(m: Memory, limits: Limits, scene: Scene, game: Option<string>, now: real) {
    if scene == DefeatRegroup then IsRepeating(m, limits, scene, game, now) || m.defeats >= REPEAT_DEFEAT_STREAK
    else if scene == VictoryAfterglow then m.victories >= REPEAT_VICTORY_STREAK
    else if scene == Boss then IsRepeating(m, limits, scene, game, now)
    else scene == GameWarming && Playing(game) && GamesPlayed(m, game.value) >= HEAVY_GAME_THRESHOLD
  }

  // ---- The classes ----

  class ShortMemory {
    const limits: Limits
    var ring: seq<Entry>

    constructor (limits: Limits)
      ensures this.limits == limits && ring == []
    {
      this.limits := limits;
      ring := [];
    }

    method RecordEntry(scene: Scene, game: Option<string>, now: real) returns (count: nat)
      modifies this
      ensures ring == Push(old(ring), Entry(scene, KeyFor(scene, game), now), limits.capacity)
      ensures count == CountSince(ring, KeyFor(scene, game), now - limits.window)
    {
      var key := KeyFor(scene, game);
      ring := ring + [Entry(scene, key, now)];
      if |ring| > limits.capacity {
        ring := ring[|ring| - limits.capacity..];
      }
      count := RepetitionCount(scene, game, now);
    }

    method RepetitionCount(scene: Scene, game: Option<string>, now: real) returns (count: nat)
      ensures count == CountSince(ring, KeyFor(scene, game), now - limits.window)
    {
      var key, cutoff := KeyFor(scene, game), now - limits.window;
      count := 0;
      var i := |ring|;
      while i > 0
        invariant 0 <= i <= |ring|
        invariant count == CountSince(ring[i..], key, cutoff)
      {
        i := i - 1;
        assert ring[i..][1..] == ring[i + 1..];
        if ring[i].key == key && ring[i].at >= cutoff {
          count := count + 1;
        }
      }
    }
  }

  class PersistentMemory {
    var games: map<string, int>
    var lastKnown: Option<string>
    var victories: int
    var defeats: int

    constructor ()
      ensures games == map[] && lastKnown == None && victories == 0 && defeats == 0
    {
      games, lastKnown, victories, defeats := map[], None, 0, 0;
    }

    method RecordGamePlayed(name: string) returns (count: int)
      modifies this
      ensures victories == old(victories) && defeats == old(defeats)
      ensures name == "" ==> count == 0 && games == old(games) && lastKnown == old(lastKnown)
      ensures name != "" ==>
        && count == (if name in old(games) then old(games)[name] else 0) + 1
        && games == old(games)[name := count]
        && lastKnown == Some(name)
    {
      if name == "" {
        return 0;
      }
      count := (if name in games then games[name] else 0) + 1;
      games := games[name := count];
      lastKnown := Some(name);
    }

    method RecordVictory() returns (streak: int)
      modifies this
      ensures games == old(games) && lastKnown == old(lastKnown)
      ensures defeats == 0 && victories == old(victories) + 1 == streak
    {
      defeats := 0;
      victories := victories + 1;
      streak := victories;
    }

    method RecordDefeat() returns (streak: int)
      modifies this
      ensures games == old(games) && lastKnown == old(lastKnown)
      ensures victories == 0 && defeats == old(defeats) + 1 == streak
    {
      victories := 0;
      defeats := defeats + 1;
      streak := defeats;
    }
  }

  class RepetitionAdvisor {
    const short: ShortMemory
    const persistent: PersistentMemory

    ghost function Value(): Memory
      reads short, persistent
    {
      Memory(short.ring, persistent.games, persistent.lastKnown, persistent.victories, persistent.defeats)
    }

    constructor (short: ShortMemory, persistent: PersistentMemory)
      ensures this.short == short && this.persistent == persistent
    {
      this.short, this.persistent := short, persistent;
    }

    method Advise(scene: Scene, game: Option<string>, now: real) returns (repetition: bool)
      ensures repetition == Repeats(Value(), short.limits, scene, game, now)
    {
      if scene == DefeatRegroup {
        var count := short.RepetitionCount(scene, game, now);
        if count >= short.limits.threshold {
          return true;
        }
        return persistent.defeats >= REPEAT_DEFEAT_STREAK;
      }
      if scene == VictoryAfterglow {
        return persistent.victories >= REPEAT_VICTORY_STREAK;
      }
      if scene == Boss {
        var count := short.RepetitionCount(scene, game, now);
        return count >= short.limits.threshold;
      }
      if scene == GameWarming && Playing(game) {
        return (if game.value in persistent.games then persistent.games[game.value] else 0) >= HEAVY_GAME_THRESHOLD;
      }
      return false;
    }

    method RecordSceneEntry(scene: Scene, game: Option<string>, now: real)
      modifies short, persistent
      ensures Value() == Record(old(Value()), short.limits, scene, game, now)
    {
      var _ := short.RecordEntry(scene, game, now);
      if scene == GameWarming && Playing(game) {
        var _ := persistent.RecordGamePlayed(game.value);
      } else if scene == VictoryAfterglow {
        var _ := persistent.RecordVictory();
      } else if scene == DefeatRegroup {
        var _ := persistent.RecordDefeat();
      }
    }
  }
}
