/** The progress page: level progress toward the next tree level and the
    list of recent achievements, both read from the statistics the client
    fetched. */
module Progress {
  import opened Wrappers
  import opened Seqs
  import Storage
  import Tree

  /** The statistics as the client sees them: any member may be missing. */
  datatype ClientStats = ClientStats(
    treeLevel: Option<int>,
    totalCompleted: Option<int>,
    completedThisWeek: Option<int>,
    currentStreak: Option<int>,
    overdueTasks: Option<int>)

  datatype StatName = TreeLevel | TotalCompleted | CompletedThisWeek | CurrentStreak | OverdueTasks

  /** `stats?.name`. */
  function Member(stats: Option<ClientStats>, name: StatName): Option<int> {
    match stats
    case None => None
    case Some(s) =>
      match name
      case TreeLevel => s.treeLevel
      case TotalCompleted => s.totalCompleted
      case CompletedThisWeek => s.completedThisWeek
      case CurrentStreak => s.currentStreak
      case OverdueTasks => s.overdueTasks
  }

  /** `stats?.name || d`: a missing member, a missing `stats` and 0 all
      give the default. */
  function Stat(stats: Option<ClientStats>, name: StatName, d: int): (r: int)
    ensures r == d || (Member(stats, name) == Some(r) && r != 0)
    ensures Member(stats, name).Some? && Member(stats, name).value != 0 ==> r == Member(stats, name).value
  {
    var m := Member(stats, name);
    if m.Some? && m.value != 0 then m.value else d
  }

  /** JavaScript's `%`: the remainder takes the sign of the dividend. */
  function JsRem(a: int, b: int): (r: int)
    requires b != 0
    ensures a >= 0 ==> 0 <= r < (if b < 0 then -b else b)
    ensures a >= 0 && b > 0 ==> r == a % b
  {
    var m := if b < 0 then -b else b;
    if a >= 0 then a % m else -((-a) % m)
  }

  datatype LevelProgress = LevelProgress(currentLevel: int, threshold: int, progress: int, remaining: int)

  /** `getTreeLevelProgress`, without the floating-point percentage: the
      level (1 when missing or 0), ten tasks per level, the tasks counted
      toward the next level and the tasks still needed. */
  function TreeLevelProgress(stats: Option<ClientStats>): (r: LevelProgress)
    ensures r.currentLevel == Stat(stats, TreeLevel, 1) && r.currentLevel != 0
    ensures r.threshold == 10 * r.currentLevel
    ensures r.progress == JsRem(Stat(stats, TotalCompleted, 0), r.threshold)
    ensures r.remaining == r.threshold - r.progress
  {
    var currentLevel := Stat(stats, TreeLevel, 1);
    var tasksCompleted := Stat(stats, TotalCompleted, 0);
    var tasksForNextLevel := currentLevel * 10;
    var progressInCurrentLevel := JsRem(tasksCompleted, tasksForNextLevel);
    LevelProgress(currentLevel, tasksForNextLevel, progressInCurrentLevel, tasksForNextLevel - progressInCurrentLevel)
  }

  /** For a positive level and a count that is not negative, the progress
      lies in [0, threshold), so the bar is below 100% and between 1 and
      `threshold` tasks remain. */
  lemma ProgressBounds(stats: Option<ClientStats>)
    requires TreeLevelProgress(stats).currentLevel >= 1
    requires Stat(stats, TotalCompleted, 0) >= 0
    ensures var p := TreeLevelProgress(stats);
      && 0 <= p.progress < p.threshold
      && p.progress * 100 < 100 * p.threshold
      && 1 <= p.remaining <= p.threshold
  {
  }

  /** The progress bar wraps: every ten tasks at level 1 it starts over. */
  lemma ProgressWraps(n: nat)
    ensures TreeLevelProgress(Some(ClientStats(None, Some(n), None, None, None))).progress == n % 10
  {
  }

  datatype Achievement = WeekWarrior | StreakMaster(streak: int) | ScannerPro

  function Rank(a: Achievement): nat {
    match a
    case WeekWarrior => 0
    case StreakMaster(_) => 1
    case ScannerPro => 2
  }

  /** `getRecentAchievements`: the badges earned, pushed in a fixed order. */
  method GetRecentAchievements(stats: Option<ClientStats>) returns (achievements: seq<Achievement>)
    ensures WeekWarrior in achievements <==> Stat(stats, CompletedThisWeek, 0) >= 10
    ensures (exists k :: StreakMaster(k) in achievements) <==> Stat(stats, CurrentStreak, 0) >= 7
    ensures forall k :: StreakMaster(k) in achievements ==> k == Stat(stats, CurrentStreak, 0)
    ensures ScannerPro in achievements <==> Stat(stats, TotalCompleted, 0) >= 25
    ensures forall i, j :: 0 <= i < j < |achievements| ==> Rank(achievements[i]) < Rank(achievements[j])
    ensures |achievements| <= 3
  {
    achievements := [];
    if Stat(stats, CompletedThisWeek, 0) >= 10 {
      achievements := achievements + [WeekWarrior];
    }
    var streak := Stat(stats, CurrentStreak, 0);
    if streak >= 7 {
      achievements := achievements + [StreakMaster(streak)];
    }
    if Stat(stats, TotalCompleted, 0) >= 25 {
      achievements := achievements + [ScannerPro];
    }
  }

  /** What the client receives from the statistics route: only the three
      counts; the level and the streak are never sent. */
  function FromServer(s: Storage.Stats): ClientStats {
    ClientStats(None, Some(s.totalCompleted), Some(s.completedThisWeek), None, Some(s.overdueTasks))
  }

  /** The tree's floating leaves, fed the server's weekly count, show
      exactly when the user completed some task since this week's Sunday. */
  lemma LeavesFollowWeek(rows: seq<Storage.Task>, userId: string, now: int)
    ensures Tree.LeavesShown(Stat(Some(FromServer(Storage.StatsOf(rows, userId, now))), CompletedThisWeek, 0))
      <==> exists t :: t in rows && Storage.CompletedSince(userId, Storage.WeekStart(now))(t)
  {
    var week := Filter(rows, Storage.CompletedSince(userId, Storage.WeekStart(now)));
    if |week| > 0 {
      assert week[0] in week;
    }
  }

  /** Against the real server the level is always 1 and the streak badge
      can never be earned. */
  lemma ServerStatsFixLevel(s: Storage.Stats)
    ensures TreeLevelProgress(Some(FromServer(s))).currentLevel == 1
    ensures TreeLevelProgress(Some(FromServer(s))).threshold == 10
    ensures Stat(Some(FromServer(s)), CurrentStreak, 0) < 7
  {
  }
}
