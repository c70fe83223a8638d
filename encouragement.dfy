/**
 * The encouragement engine: a fixed corpus of messages, the classification of the user's
 * situation into context tags, the three-stage filter that picks a message for those tags
 * while avoiding recently shown ones, and the bounded most-recently-shown history.
 *
 * `Math.random()` is the parameter `u` with 0 <= u < 1, the hour of the clock is the
 * parameter `hour`, and the browser's `localStorage` entry is the `store` field of
 * `MessageHistoryManager`.
 */
module Encouragement {
  import opened Wrappers
  import opened Seqs

  /** The situation tags a message can be aimed at. */
  datatype MessageContext =
    | Morning | Afternoon | Evening
    | HighProgress | LowProgress | FirstTask | Streak | NearGoal

  /** The three tags that name a part of the day. */
  type TimeOfDay = c: MessageContext | c.Morning? || c.Afternoon? || c.Evening? witness Morning

  /** The kind of a message; it plays no part in the selection. */
  datatype MessageCategory = Greeting | Progress | Motivation | Completion | GoalSetting | Daily | Challenge

  /** A message of the corpus; an empty `context` marks a generic message. */
  datatype EncouragementMessage = EncouragementMessage(
    id: string,
    text: string,
    emoji: string,
    category: MessageCategory,
    context: seq<MessageContext>)

  /** The corpus, in its declared order. */
  const EncouragementMessages: seq<EncouragementMessage> := [
    EncouragementMessage("greeting_001", "今日もTOEIC学習を始めましょう！継続は力なりです。", "🌟", Greeting, [Morning]),
    EncouragementMessage("greeting_002", "お疲れ様です！午後の学習タイムですね。集中していきましょう！", "☀️", Greeting, [Afternoon]),
    EncouragementMessage("greeting_003", "夜の学習時間ですね。一日の締めくくりに頑張りましょう！", "🌙", Greeting, [Evening]),
    EncouragementMessage("progress_001", "素晴らしい進捗です！目標スコアまでもう少しですね。", "🎯", Progress, [HighProgress, NearGoal]),
    EncouragementMessage("progress_002", "着実に力を付けています。この調子で続けていきましょう！", "📈", Progress, [HighProgress]),
    EncouragementMessage("progress_003", "今日も学習を継続できました。毎日の積み重ねが大きな成果に繋がります。", "🔥", Progress, [Streak]),
    EncouragementMessage("motivation_001", "TOEICスコアアップは一日にしてならず。今日の努力が明日の成果になります！", "💪", Motivation, [LowProgress]),
    EncouragementMessage("motivation_002", "難しく感じても大丈夫。挑戦することで成長できます！", "🚀", Motivation, [LowProgress]),
    EncouragementMessage("motivation_003", "学習は投資です。今日の時間が将来の可能性を広げます。", "💎", Motivation, []),
    EncouragementMessage("completion_001", "タスク完了おめでとうございます！一歩ずつ前進していますね。", "✅", Completion, []),
    EncouragementMessage("completion_002", "よくできました！今日の学習成果を実感していますか？", "🎉", Completion, []),
    EncouragementMessage("completion_003", "素晴らしい集中力でした。この勢いを保ちましょう！", "⭐", Completion, []),
    EncouragementMessage("goal_001", "目標スコアを設定しましたね！明確な目標は成功への第一歩です。", "🎯", GoalSetting, []),
    EncouragementMessage("goal_002", "高い目標を掲げましたね。チャレンジ精神が素晴らしいです！", "🏆", GoalSetting, []),
    EncouragementMessage("daily_001", "今日も学習に取り組む姿勢が立派です。継続は最大の武器です！", "📚", Daily, []),
    EncouragementMessage("daily_002", "小さな努力も積み重ねれば大きな成果になります。頑張って！", "🌱", Daily, []),
    EncouragementMessage("daily_003", "学習習慣が身についていますね。素晴らしい継続力です！", "💫", Daily, [Streak]),
    EncouragementMessage("challenge_001", "困難は成長のチャンス。今の頑張りが必ず報われます！", "🔥", Challenge, [LowProgress]),
    EncouragementMessage("challenge_002", "諦めずに続けることが成功の秘訣です。応援しています！", "💪", Challenge, [LowProgress]),
    EncouragementMessage("challenge_003", "今日の学習が明日の自信に繋がります。一歩ずつ進みましょう！", "🌟", Challenge, [])
  ]

  /** The corpus ids are distinct, so an id names one message. */
  lemma {:induction false} CorpusIdsAreDistinct()
    ensures forall i, j :: 0 <= i < j < |EncouragementMessages| ==> EncouragementMessages[i].id != EncouragementMessages[j].id
  {
  }

  /** Every tag except `FirstTask` is served by at least one message aimed at it. */
  lemma {:induction false} EveryTagHasAMessage(c: MessageContext)
    requires c != FirstTask
    ensures exists i :: 0 <= i < |EncouragementMessages| && c in EncouragementMessages[i].context
  {
    var i := match c
      case Morning => 0
      case Afternoon => 1
      case Evening => 2
      case HighProgress => 3
      case NearGoal => 3
      case Streak => 5
      case LowProgress => 6
      case FirstTask => 0;
    assert c in EncouragementMessages[i].context;
  }

  /** No message is aimed at `FirstTask`: that tag alone only lets generic messages through. */
  lemma {:induction false} NoMessageForFirstTask()
    ensures forall i :: 0 <= i < |EncouragementMessages| ==> FirstTask !in EncouragementMessages[i].context
  {
  }

  // ---------------------------------------------------------------------------------------------
  // Classification of the situation
  // ---------------------------------------------------------------------------------------------

  /** The position of a tag in the order the classification adds them. */
  function Rank(c: MessageContext): (r: nat)
    ensures r <= 4
    ensures r == 0 <==> c.Morning? || c.Afternoon? || c.Evening?
  {
    match c
    case Morning => 0
    case Afternoon => 0
    case Evening => 0
    case HighProgress => 1
    case LowProgress => 1
    case FirstTask => 2
    case Streak => 3
    case NearGoal => 4
  }

  /** The tags appear in the order the classification adds them, each at most once. */
  predicate InAdditionOrder(cs: seq<MessageContext>) {
    forall i, j :: 0 <= i < j < |cs| ==> Rank(cs[i]) < Rank(cs[j])
  }

  /**
   * `cs` is the classification of the situation: which tags it holds, for which inputs,
   * and in which order.
   */
  predicate Classifies(cs: seq<MessageContext>, completionRate: int, completedTasks: int, hasGoal: bool, timeOfDay: Option<TimeOfDay>) {
    && TimeTagsClassified(cs, timeOfDay)
    && (HighProgress in cs <==> completionRate >= 80)
    && (LowProgress in cs <==> completionRate <= 30)
    && (FirstTask in cs <==> completedTasks == 1)
    && (Streak in cs <==> completedTasks >= 3)
    && (NearGoal in cs <==> hasGoal && completionRate >= 90)
    && InAdditionOrder(cs)
  }

  /**
   * The tag list the classification produces, assembled part by part: the time of day,
   * the progress band, the first task, the streak, and the goal.
   */
  function ContextsFor(completionRate: int, completedTasks: int, hasGoal: bool, timeOfDay: Option<TimeOfDay>): seq<MessageContext> {
    TimePart(timeOfDay) + ProgressPart(completionRate) + FirstTaskPart(completedTasks)
    + StreakPart(completedTasks) + NearGoalPart(hasGoal, completionRate)
  }

  function TimePart(timeOfDay: Option<TimeOfDay>): (r: seq<MessageContext>)
    ensures |r| <= 1 && forall i :: 0 <= i < |r| ==> Rank(r[i]) == 0
  {
    if timeOfDay.Some? then [timeOfDay.value] else []
  }

  function ProgressPart(completionRate: int): (r: seq<MessageContext>)
    ensures |r| <= 1 && forall i :: 0 <= i < |r| ==> Rank(r[i]) == 1
  {
    if completionRate >= 80 then [HighProgress] else if completionRate <= 30 then [LowProgress] else []
  }

  function FirstTaskPart(completedTasks: int): (r: seq<MessageContext>)
    ensures |r| <= 1 && forall i :: 0 <= i < |r| ==> Rank(r[i]) == 2
  {
    if completedTasks == 1 then [FirstTask] else []
  }

  function StreakPart(completedTasks: int): (r: seq<MessageContext>)
    ensures |r| <= 1 && forall i :: 0 <= i < |r| ==> Rank(r[i]) == 3
  {
    if completedTasks >= 3 then [Streak] else []
  }

  function NearGoalPart(hasGoal: bool, completionRate: int): (r: seq<MessageContext>)
    ensures |r| <= 1 && forall i :: 0 <= i < |r| ==> Rank(r[i]) == 4
  {
    if hasGoal && completionRate >= 90 then [NearGoal] else []
  }

  /**
   * `getCurrentContext`: collects the tags for the time of day and the progress figures.
   * The inputs are taken as they come: a rate outside 0..100 or more completed tasks than
   * tasks is compared like any other number. `totalTasks` takes no part in the result.
   */
  method GetCurrentContext(completionRate: int, totalTasks: int, completedTasks: int, hasGoal: bool, timeOfDay: Option<TimeOfDay>)
    returns (contexts: seq<MessageContext>)
    ensures contexts == ContextsFor(completionRate, completedTasks, hasGoal, timeOfDay)
    ensures Classifies(contexts, completionRate, completedTasks, hasGoal, timeOfDay)
    ensures timeOfDay.Some? ==> |contexts| > 0 && contexts[0] == timeOfDay.value
    ensures NoDuplicates(contexts)
    ensures |contexts| <= 4
    ensures !(HighProgress in contexts && LowProgress in contexts)
    ensures !(FirstTask in contexts && Streak in contexts)
    ensures NearGoal in contexts ==> HighProgress in contexts
  {
    contexts := [];
    if timeOfDay.Some? {
      contexts := contexts + [timeOfDay.value];
    }
    assert contexts == TimePart(timeOfDay);
    if completionRate >= 80 {
      contexts := contexts + [HighProgress];
    } else if completionRate <= 30 {
      contexts := contexts + [LowProgress];
    }
    assert contexts == TimePart(timeOfDay) + ProgressPart(completionRate);
    if completedTasks == 1 {
      contexts := contexts + [FirstTask];
    }
    assert contexts == TimePart(timeOfDay) + ProgressPart(completionRate) + FirstTaskPart(completedTasks);
    if completedTasks >= 3 {
      contexts := contexts + [Streak];
    }
    assert contexts == TimePart(timeOfDay) + ProgressPart(completionRate) + FirstTaskPart(completedTasks)
                       + StreakPart(completedTasks);
    if hasGoal && completionRate >= 90 {
      contexts := contexts + [NearGoal];
    }
    ContextsForClassifies(completionRate, completedTasks, hasGoal, timeOfDay);
  }

  /** The assembled list classifies the situation, starts with the time of day and has at most four tags. */
  lemma {:induction false} ContextsForClassifies(completionRate: int, completedTasks: int, hasGoal: bool, timeOfDay: Option<TimeOfDay>)
    ensures var cs := ContextsFor(completionRate, completedTasks, hasGoal, timeOfDay);
      && Classifies(cs, completionRate, completedTasks, hasGoal, timeOfDay)
      && (timeOfDay.Some? ==> |cs| > 0 && cs[0] == timeOfDay.value)
      && NoDuplicates(cs)
      && |cs| <= 4
  {
    var cs := ContextsFor(completionRate, completedTasks, hasGoal, timeOfDay);
    ContextsForOrder(completionRate, completedTasks, hasGoal, timeOfDay);
    ContextsForMembers(completionRate, completedTasks, hasGoal, timeOfDay);
    RankedHasNoDuplicates(cs);
  }

  /** The assembled list is in addition order, starts with the time of day and has at most four tags. */
  lemma {:induction false} ContextsForOrder(completionRate: int, completedTasks: int, hasGoal: bool, timeOfDay: Option<TimeOfDay>)
    ensures var cs := ContextsFor(completionRate, completedTasks, hasGoal, timeOfDay);
      && InAdditionOrder(cs)
      && (timeOfDay.Some? ==> |cs| > 0 && cs[0] == timeOfDay.value)
      && |cs| <= 4
  {
    var t, p, f, k, g := TimePart(timeOfDay), ProgressPart(completionRate), FirstTaskPart(completedTasks),
      StreakPart(completedTasks), NearGoalPart(hasGoal, completionRate);
    assert InAdditionOrder(t) && RanksBelow(t, 1);
    RankedAppend(t, p, 1);
    RankedAppend(t + p, f, 2);
    RankedAppend(t + p + f, k, 3);
    RankedAppend(t + p + f + k, g, 4);
    assert |f| + |k| <= 1;
  }

  /** The assembled list holds exactly the tags the situation calls for. */
  lemma {:induction false} ContextsForMembers(completionRate: int, completedTasks: int, hasGoal: bool, timeOfDay: Option<TimeOfDay>)
    ensures var cs := ContextsFor(completionRate, completedTasks, hasGoal, timeOfDay);
      && TimeTagsClassified(cs, timeOfDay)
      && (HighProgress in cs <==> completionRate >= 80)
      && (LowProgress in cs <==> completionRate <= 30)
      && (FirstTask in cs <==> completedTasks == 1)
      && (Streak in cs <==> completedTasks >= 3)
      && (NearGoal in cs <==> hasGoal && completionRate >= 90)
  {
    var t, p, f, k, g := TimePart(timeOfDay), ProgressPart(completionRate), FirstTaskPart(completedTasks),
      StreakPart(completedTasks), NearGoalPart(hasGoal, completionRate);
    var cs := ContextsFor(completionRate, completedTasks, hasGoal, timeOfDay);
    assert forall c :: c in cs <==> c in t || c in p || c in f || c in k || c in g;
  }

  /** Every tag of `cs` ranks below `r`. */
  predicate RanksBelow(cs: seq<MessageContext>, r: nat) {
    forall i :: 0 <= i < |cs| ==> Rank(cs[i]) < r
  }

  /** Joining a ranked list with a ranked list of higher ranks keeps the order. */
  lemma {:induction false} RankedAppend(a: seq<MessageContext>, b: seq<MessageContext>, r: nat)
    requires InAdditionOrder(a) && InAdditionOrder(b) && RanksBelow(a, r)
    requires forall i :: 0 <= i < |b| ==> r <= Rank(b[i]) < r + 1
    ensures InAdditionOrder(a + b) && RanksBelow(a + b, r + 1)
  {
  }

  /** The time-of-day tags of `cs` are exactly the one given, if any. */
  predicate TimeTagsClassified(cs: seq<MessageContext>, timeOfDay: Option<TimeOfDay>) {
    forall c: MessageContext :: Rank(c) == 0 ==> (c in cs <==> timeOfDay == Some(c))
  }

  /** Strictly increasing ranks rule out repeated tags. */
  lemma {:induction false} RankedHasNoDuplicates(cs: seq<MessageContext>)
    requires InAdditionOrder(cs)
    ensures NoDuplicates(cs)
  {
  }

  /**
   * The classification is unique: two lists that both classify the same situation are
   * equal, so `Classifies` pins the result of `GetCurrentContext` down completely.
   */
  lemma {:induction false} ClassificationIsUnique(a: seq<MessageContext>, b: seq<MessageContext>,
                               completionRate: int, completedTasks: int, hasGoal: bool, timeOfDay: Option<TimeOfDay>)
    requires Classifies(a, completionRate, completedTasks, hasGoal, timeOfDay)
    requires Classifies(b, completionRate, completedTasks, hasGoal, timeOfDay)
    ensures a == b
  {
    assert forall c :: c in a <==> c in b by {
      forall c
        ensures c in a <==> c in b
      {
        if Rank(c) == 0 {
        } else {
          match c
          case HighProgress =>
          case LowProgress =>
          case FirstTask =>
          case Streak =>
          case NearGoal =>
        }
      }
    }
    RankedSameMembersAreEqual(a, b);
  }

  /** Two ranked lists with the same members are equal. */
  lemma {:induction false} RankedSameMembersAreEqual(a: seq<MessageContext>, b: seq<MessageContext>)
    requires InAdditionOrder(a) && InAdditionOrder(b)
    requires forall c :: c in a <==> c in b
    ensures a == b
    decreases |a|
  {
    if a == [] {
      assert forall i :: 0 <= i < |b| ==> b[i] in b;
    } else {
      assert b != [] by {
        assert a[0] in b;
      }
      // The first elements are each other's lowest-ranked member, hence equal.
      assert a[0] in a && a[0] in b;
      assert b[0] in b && b[0] in a;
      var k :| 0 <= k < |b| && b[k] == a[0];
      var l :| 0 <= l < |a| && a[l] == b[0];
      RankedHeadIsLowest(a, l);
      RankedHeadIsLowest(b, k);
      assert k == 0;
      forall c
        ensures c in a[1..] <==> c in b[1..]
      {
        RankedTail(a, c);
        RankedTail(b, c);
      }
      RankedSameMembersAreEqual(a[1..], b[1..]);
      assert a == [a[0]] + a[1..] && b == [b[0]] + b[1..];
    }
  }

  /** The head of a ranked list has a lower rank than every later tag. */
  lemma {:induction false} RankedHeadIsLowest(cs: seq<MessageContext>, i: nat)
    requires InAdditionOrder(cs) && i < |cs|
    ensures Rank(cs[0]) <= Rank(cs[i])
    ensures i > 0 ==> Rank(cs[0]) < Rank(cs[i])
  {
  }

  /** The tail of a non-empty ranked list holds exactly its members other than the head. */
  lemma {:induction false} RankedTail(cs: seq<MessageContext>, c: MessageContext)
    requires InAdditionOrder(cs) && cs != []
    ensures c in cs[1..] <==> c in cs && c != cs[0]
  {
    if c in cs[1..] {
      var i :| 0 <= i < |cs[1..]| && cs[1..][i] == c;
      assert cs[i + 1] == c;
    }
    if c in cs && c != cs[0] {
      var i :| 0 <= i < |cs| && cs[i] == c;
      assert cs[1..][i - 1] == c;
    }
  }

  /**
   * `getTimeOfDay`: morning from 6 to 11, afternoon from 12 to 17, evening for every
   * other hour.
   */
  function TimeOfDayOf(hour: int): (t: TimeOfDay)
    ensures t == Morning <==> 6 <= hour < 12
    ensures t == Afternoon <==> 12 <= hour < 18
    ensures t == Evening <==> hour < 6 || hour >= 18
  {
    if hour >= 6 && hour < 12 then Morning
    else if hour >= 12 && hour < 18 then Afternoon
    else Evening
  }

  // ---------------------------------------------------------------------------------------------
  // Message selection
  // ---------------------------------------------------------------------------------------------

  /** The message is aimed at one of the requested tags. */
  predicate SharesTag(m: EncouragementMessage, contexts: seq<MessageContext>) {
    exists c :: c in m.context && c in contexts
  }

  /** The first-stage test: no tags requested, a generic message, or a shared tag. */
  predicate FitsContexts(m: EncouragementMessage, contexts: seq<MessageContext>) {
    |contexts| == 0 || |m.context| == 0 || SharesTag(m, contexts)
  }

  /** The stage-1 test on one message. */
  function FitsAndAllowed(contexts: seq<MessageContext>, excluded: seq<string>): EncouragementMessage -> bool {
    (m: EncouragementMessage) => m.id !in excluded && FitsContexts(m, contexts)
  }

  /** The stage-2 test on one message. */
  function GenericAndAllowed(excluded: seq<string>): EncouragementMessage -> bool {
    (m: EncouragementMessage) => |m.context| == 0 && m.id !in excluded
  }

  /** The stage-3 test on one message. */
  function Allowed(excluded: seq<string>): EncouragementMessage -> bool {
    (m: EncouragementMessage) => m.id !in excluded
  }

  /** Stage 1: the non-excluded messages that fit the requested tags. */
  function ContextPool(messages: seq<EncouragementMessage>, contexts: seq<MessageContext>, excluded: seq<string>): (pool: seq<EncouragementMessage>)
    ensures forall i :: 0 <= i < |pool| ==> pool[i] in messages && pool[i].id !in excluded && FitsContexts(pool[i], contexts)
    ensures forall i :: 0 <= i < |messages| && messages[i].id !in excluded && FitsContexts(messages[i], contexts) ==> messages[i] in pool
  {
    var p := FitsAndAllowed(contexts, excluded);
    FilterMembers(messages, p);
    forall i | 0 <= i < |messages| && messages[i].id !in excluded && FitsContexts(messages[i], contexts)
      ensures messages[i] in Filter(messages, p)
    {
      FilterKeeps(messages, p, i);
    }
    Filter(messages, p)
  }

  /** Stage 2: the non-excluded generic messages. */
  function GenericPool(messages: seq<EncouragementMessage>, excluded: seq<string>): (pool: seq<EncouragementMessage>)
    ensures forall i :: 0 <= i < |pool| ==> pool[i] in messages && pool[i].id !in excluded && |pool[i].context| == 0
    ensures forall i :: 0 <= i < |messages| && messages[i].id !in excluded && |messages[i].context| == 0 ==> messages[i] in pool
  {
    var p := GenericAndAllowed(excluded);
    FilterMembers(messages, p);
    forall i | 0 <= i < |messages| && messages[i].id !in excluded && |messages[i].context| == 0
      ensures messages[i] in Filter(messages, p)
    {
      FilterKeeps(messages, p, i);
    }
    Filter(messages, p)
  }

  /** Stage 3: every non-excluded message. */
  function AllowedPool(messages: seq<EncouragementMessage>, excluded: seq<string>): (pool: seq<EncouragementMessage>)
    ensures forall i :: 0 <= i < |pool| ==> pool[i] in messages && pool[i].id !in excluded
    ensures forall i :: 0 <= i < |messages| && messages[i].id !in excluded ==> messages[i] in pool
    ensures |pool| == 0 <==> forall i :: 0 <= i < |messages| ==> messages[i].id in excluded
  {
    var p := Allowed(excluded);
    FilterMembers(messages, p);
    forall i | 0 <= i < |messages| && messages[i].id !in excluded
      ensures messages[i] in Filter(messages, p)
    {
      FilterKeeps(messages, p, i);
    }
    if forall i :: 0 <= i < |messages| ==> messages[i].id in excluded then
      FilterKeepsNone(messages, p);
      Filter(messages, p)
    else
      Filter(messages, p)
  }

  /** The pool the draw is made from: the first non-empty stage, or empty when all three are. */
  function CandidatePool(messages: seq<EncouragementMessage>, contexts: seq<MessageContext>, excluded: seq<string>): (pool: seq<EncouragementMessage>)
    ensures forall i :: 0 <= i < |pool| ==> pool[i] in messages && pool[i].id !in excluded
    ensures |ContextPool(messages, contexts, excluded)| > 0 ==> pool == ContextPool(messages, contexts, excluded)
    ensures |ContextPool(messages, contexts, excluded)| == 0 ==> pool == AllowedPool(messages, excluded)
    ensures |pool| == 0 <==> |AllowedPool(messages, excluded)| == 0
  {
    var first := ContextPool(messages, contexts, excluded);
    var second := GenericPool(messages, excluded);
    var third := AllowedPool(messages, excluded);
    if |first| > 0 then
      assert first[0] in messages && first[0].id !in excluded;
      first
    else if |second| > 0 then
      // Unreachable: a generic message fits every list of tags (GenericStageNeverDecides).
      GenericStageNeverDecides(messages, contexts, excluded);
      assert false;
      second
    else
      third
  }

  /**
   * The generic stage never decides: every non-excluded generic message already passes
   * stage 1, so stage 2 is empty whenever stage 1 is.
   */
  lemma {:induction false} GenericStageNeverDecides(messages: seq<EncouragementMessage>, contexts: seq<MessageContext>, excluded: seq<string>)
    ensures |ContextPool(messages, contexts, excluded)| == 0 ==> |GenericPool(messages, excluded)| == 0
  {
    var second := GenericPool(messages, excluded);
    if |second| > 0 {
      assert second[0] in messages;
      var i :| 0 <= i < |messages| && messages[i] == second[0];
      assert FitsContexts(messages[i], contexts);
    }
  }

  /** `Math.floor(u * n)` for 0 <= u < 1: an index below `n`. */
  function PickIndex(n: nat, u: real): (i: nat)
    requires n > 0 && 0.0 <= u < 1.0
    ensures i < n
    ensures i as real <= u * n as real < i as real + 1.0
  {
    var x := u * n as real;
    ScaledBelow(u, n as real);
    FloorBelow(x, n);
    x.Floor
  }

  /** The floor of a real in [0, n) is a natural number below `n`. */
  lemma {:induction false} FloorBelow(x: real, n: nat)
    requires 0.0 <= x < n as real
    ensures 0 <= x.Floor < n
    ensures x.Floor as real <= x < x.Floor as real + 1.0
  {
  }

  /** Scaling by a fraction in [0, 1) stays below the scale. */
  lemma {:induction false} ScaledBelow(u: real, x: real)
    requires 0.0 <= u < 1.0 && x > 0.0
    ensures 0.0 <= u * x < x
  {
    assert x - u * x == (1.0 - u) * x;
    assert (1.0 - u) * x > 0.0;
  }

  /**
   * `getRandomEncouragementMessage` over the message list `messages`: draws from the
   * candidate pool with `u`, or returns the first message when every message is excluded.
   */
  function RandomEncouragementMessage(messages: seq<EncouragementMessage>, contexts: seq<MessageContext>, excluded: seq<string>, u: real): (m: EncouragementMessage)
    requires |messages| > 0 && 0.0 <= u < 1.0
    ensures m in messages
    ensures (exists i :: 0 <= i < |messages| && messages[i].id !in excluded) ==> m.id !in excluded
    ensures (forall i :: 0 <= i < |messages| ==> messages[i].id in excluded) ==> m == messages[0]
    ensures |ContextPool(messages, contexts, excluded)| > 0 ==> FitsContexts(m, contexts)
  {
    Draw(CandidatePool(messages, contexts, excluded), messages[0], u)
  }

  /** The element at the drawn index of a non-empty pool, or the fallback for an empty one. */
  function Draw<T>(pool: seq<T>, fallback: T, u: real): (x: T)
    requires 0.0 <= u < 1.0
    ensures |pool| > 0 ==> x in pool
    ensures |pool| == 0 ==> x == fallback
  {
    if |pool| == 0 then fallback else pool[PickIndex(|pool|, u)]
  }

  /** A draw whose scaled value lies in the interval of index `i` yields the `i`-th element. */
  lemma {:induction false} DrawOnInterval<T>(pool: seq<T>, fallback: T, u: real, i: nat)
    requires 0.0 <= u < 1.0 && i < |pool|
    requires i as real <= u * |pool| as real < i as real + 1.0
    ensures Draw(pool, fallback, u) == pool[i]
  {
    PickIndexOnInterval(|pool|, u, i);
  }

  /**
   * The draw is uniform over the candidates: candidate `i` of `n` is returned exactly when
   * `u` lies in [i/n, (i+1)/n).
   */
  lemma {:induction false} CandidateDrawnOnItsInterval(messages: seq<EncouragementMessage>, contexts: seq<MessageContext>, excluded: seq<string>, i: nat, u: real)
    requires |messages| > 0 && 0.0 <= u < 1.0
    requires i < |CandidatePool(messages, contexts, excluded)|
    ensures var n := |CandidatePool(messages, contexts, excluded)|;
      RandomEncouragementMessage(messages, contexts, excluded, u) == CandidatePool(messages, contexts, excluded)[i]
      <== i as real <= u * n as real < i as real + 1.0
  {
    var pool := CandidatePool(messages, contexts, excluded);
    if i as real <= u * |pool| as real < i as real + 1.0 {
      DrawOnInterval(pool, messages[0], u, i);
      assert RandomEncouragementMessage(messages, contexts, excluded, u) == Draw(pool, messages[0], u);
    }
  }

  /** `PickIndex` returns `i` exactly when u * n lies in [i, i + 1). */
  lemma {:induction false} PickIndexOnInterval(n: nat, u: real, i: nat)
    requires n > 0 && 0.0 <= u < 1.0
    requires i as real <= u * n as real < i as real + 1.0
    ensures PickIndex(n, u) == i
  {
  }

  /** `i / n` lies in [0, 1) and scales back to `i`. */
  lemma {:induction false} ScaledFraction(i: nat, n: nat)
    requires i < n
    ensures 0.0 <= i as real / n as real < 1.0
    ensures (i as real / n as real) * n as real == i as real
  {
  }

  /** With the first five ids excluded and no tags, none of the five is drawn. */
  lemma {:induction false} ExcludedIdsAreSkipped(u: real)
    requires 0.0 <= u < 1.0
    ensures var excluded := ["greeting_001", "greeting_002", "greeting_003", "progress_001", "progress_002"];
      RandomEncouragementMessage(EncouragementMessages, [], excluded, u).id !in excluded
  {
    var excluded := ["greeting_001", "greeting_002", "greeting_003", "progress_001", "progress_002"];
    assert EncouragementMessages[5].id !in excluded;
  }

  // ---------------------------------------------------------------------------------------------
  // History of shown messages
  // ---------------------------------------------------------------------------------------------

  /** The most ids the history keeps. */
  const MaxHistory: nat := 10

  /** What the storage entry holds: nothing, something unreadable, or a list of ids. */
  datatype Stored = Absent | Corrupt | Ids(ids: seq<string>)

  /** The filter test `id => id !== messageId`. */
  function Other<T(==)>(messageId: T): T -> bool {
    (x: T) => x != messageId
  }

  /** `s.slice(0, n)`. */
  function Take<T>(s: seq<T>, n: nat): (r: seq<T>)
    ensures |r| <= n && |r| <= |s| && r == s[..|r|]
    ensures |s| <= n ==> r == s
  {
    if |s| <= n then s else s[..n]
  }

  /**
   * The new history after showing `id`: `id` first, then the old entries other than `id`
   * in their old order, cut to `MaxHistory` entries.
   */
  function MoveToFront(id: string, history: seq<string>): (r: seq<string>)
    ensures 1 <= |r| <= MaxHistory && r[0] == id
    ensures forall i :: 1 <= i < |r| ==> r[i] != id
    ensures IsSubsequence(r[1..], history)
    ensures NoDuplicates(history) ==> NoDuplicates(r)
    ensures |r| == if 1 + |Filter(history, Other(id))| <= MaxHistory then 1 + |Filter(history, Other(id))| else MaxHistory
    ensures forall i :: 0 <= i < |history| && i < MaxHistory - 1 && history[i] != id ==> history[i] in r
    ensures forall i :: 0 <= i < |history| && history[i] != id && |Filter(history[..i], Other(id))| < MaxHistory - 1 ==> history[i] in r
    ensures NoDuplicates(history) ==>
      forall j, k :: 0 <= j < k < |history| && history[j] != id && history[k] != id && history[k] in r ==> history[j] in r
  {
    var r := Take([id] + Filter(history, Other(id)), MaxHistory);
    MoveToFrontHead(id, history, r);
    MoveToFrontKeepsOrder(id, history, r);
    if NoDuplicates(history) then
      MoveToFrontNoDuplicates(id, history, r);
      MoveToFrontKeepsRecent(id, history, r);
      MoveToFrontKeepsNewest(id, history, r);
      r
    else
      MoveToFrontKeepsRecent(id, history, r);
      r
  }

  /** The head of the new history is `id`, and `id` occurs nowhere else in it. */
  lemma {:induction false} MoveToFrontHead<T>(id: T, history: seq<T>, r: seq<T>)
    requires r == Take([id] + Filter(history, Other(id)), MaxHistory)
    ensures 1 <= |r| <= MaxHistory && r[0] == id
    ensures forall i :: 1 <= i < |r| ==> r[i] != id
  {
    var rest := Filter(history, Other(id));
    forall i | 1 <= i < |r|
      ensures r[i] != id
    {
      assert r[i] == rest[i - 1];
      assert Other(id)(rest[i - 1]);
    }
  }

  /** The entries after the head are old entries in their old relative order. */
  lemma {:induction false} MoveToFrontKeepsOrder<T>(id: T, history: seq<T>, r: seq<T>)
    requires r == Take([id] + Filter(history, Other(id)), MaxHistory)
    requires |r| >= 1
    ensures IsSubsequence(r[1..], history)
  {
    var rest := Filter(history, Other(id));
    FilterIsSubsequence(history, Other(id));
    assert r[1..] == rest[..|r| - 1];
    PrefixOfSubsequence(rest, history, |r| - 1);
  }

  /** A duplicate-free history stays duplicate-free. */
  lemma {:induction false} MoveToFrontNoDuplicates<T>(id: T, history: seq<T>, r: seq<T>)
    requires r == Take([id] + Filter(history, Other(id)), MaxHistory)
    requires NoDuplicates(history)
    ensures NoDuplicates(r)
  {
    var rest := Filter(history, Other(id));
    FilterIsSubsequence(history, Other(id));
    SubsequenceKeepsNoDuplicates(rest, history);
    MoveToFrontHead(id, history, r);
    forall i, j | 0 <= i < j < |r|
      ensures r[i] != r[j]
    {
      if i > 0 {
        assert r[i] == rest[i - 1] && r[j] == rest[j - 1];
      }
    }
  }

  /**
   * The nine most recent other entries survive: every other entry preceded by fewer than
   * nine other entries, in particular every other entry among the first nine.
   */
  lemma {:induction false} MoveToFrontKeepsRecent<T>(id: T, history: seq<T>, r: seq<T>)
    requires r == Take([id] + Filter(history, Other(id)), MaxHistory)
    ensures forall i :: 0 <= i < |history| && i < MaxHistory - 1 && history[i] != id ==> history[i] in r
    ensures forall i :: 0 <= i < |history| && history[i] != id && |Filter(history[..i], Other(id))| < MaxHistory - 1 ==> history[i] in r
  {
    forall i | 0 <= i < |history| && i < MaxHistory - 1 && history[i] != id
      ensures history[i] in r
    {
      RecentEntryKept(id, history, r, i);
    }
    forall i | 0 <= i < |history| && history[i] != id && |Filter(history[..i], Other(id))| < MaxHistory - 1
      ensures history[i] in r
    {
      FilterIndex(history, Other(id), i);
      SurvivorInTake(id, Filter(history, Other(id)), r, |Filter(history[..i], Other(id))|);
    }
  }

  /** One of the nine most recent other entries survives. */
  lemma {:induction false} RecentEntryKept<T>(id: T, history: seq<T>, r: seq<T>, i: nat)
    requires r == Take([id] + Filter(history, Other(id)), MaxHistory)
    requires i < |history| && i < MaxHistory - 1 && history[i] != id
    ensures history[i] in r
  {
    assert Other(id)(history[i]);
    var k := FilterPosition(history, Other(id), i);
    SurvivorInTake(id, Filter(history, Other(id)), r, k);
  }

  /**
   * In a duplicate-free history the survivors are the newest others: when an other entry
   * survives, so does every other entry more recent than it.
   */
  lemma {:induction false} MoveToFrontKeepsNewest<T>(id: T, history: seq<T>, r: seq<T>)
    requires r == Take([id] + Filter(history, Other(id)), MaxHistory)
    requires NoDuplicates(history)
    ensures forall j, k :: 0 <= j < k < |history| && history[j] != id && history[k] != id && history[k] in r ==> history[j] in r
  {
    var rest := Filter(history, Other(id));
    FilterIsSubsequence(history, Other(id));
    SubsequenceKeepsNoDuplicates(rest, history);
    MoveToFrontHead(id, history, r);
    forall j, k | 0 <= j < k < |history| && history[j] != id && history[k] != id && history[k] in r
      ensures history[j] in r
    {
      var m :| 0 <= m < |r| && r[m] == history[k];
      assert m >= 1;
      assert r[m] == rest[m - 1] by {
        TakeOfFront(id, rest, r, m);
      }
      FilterIndex(history, Other(id), k);
      var pk := |Filter(history[..k], Other(id))|;
      assert rest[pk] == rest[m - 1];
      assert pk == m - 1;
      FilterCountGrows(history, Other(id), j, k);
      FilterIndex(history, Other(id), j);
      SurvivorInTake(id, rest, r, |Filter(history[..j], Other(id))|);
    }
  }

  /** Position `m` after the head of the cut history holds `rest[m - 1]`. */
  lemma {:induction false} TakeOfFront<T>(id: T, rest: seq<T>, r: seq<T>, m: nat)
    requires r == Take([id] + rest, MaxHistory)
    requires 1 <= m < |r|
    ensures m - 1 < |rest| && r[m] == rest[m - 1]
  {
    assert r == ([id] + rest)[..|r|];
  }

  /** Cutting `[id] + rest` to `MaxHistory` keeps `rest[k]` for k < MaxHistory - 1. */
  lemma {:induction false} SurvivorInTake<T>(id: T, rest: seq<T>, r: seq<T>, k: nat)
    requires r == Take([id] + rest, MaxHistory)
    requires k < |rest| && k < MaxHistory - 1
    ensures rest[k] in r
  {
    var full := [id] + rest;
    if |full| <= MaxHistory {
      assert r == full;
    } else {
      assert r == full[..MaxHistory];
    }
    assert r[k + 1] == rest[k];
  }

  /** An element kept by a filter lands at an index `k` no greater than its own. */
  lemma {:induction false} FilterPosition<T>(xs: seq<T>, p: T -> bool, i: nat) returns (k: nat)
    requires i < |xs| && p(xs[i])
    ensures k <= i && k < |Filter(xs, p)| && Filter(xs, p)[k] == xs[i]
  {
    if i == 0 {
      k := 0;
    } else if p(xs[0]) {
      var k' := FilterPosition(xs[1..], p, i - 1);
      k := k' + 1;
    } else {
      k := FilterPosition(xs[1..], p, i - 1);
    }
  }

  /** Showing the same message twice in a row leaves the history as after the first time. */
  lemma {:induction false} MoveToFrontIsIdempotent(id: string, history: seq<string>)
    ensures MoveToFront(id, MoveToFront(id, history)) == MoveToFront(id, history)
  {
    var r := MoveToFront(id, history);
    FilterKeepsAll(r[1..], Other(id));
    assert r == [r[0]] + r[1..];
    assert Filter(r, Other(id)) == r[1..];
  }

  /** Showing 1, then 2, then 1 again leaves [1, 2]; showing 1 then 2 leaves [2, 1]. */
  lemma {:induction false} HistoryExamples()
    ensures MoveToFront("test_message_2", MoveToFront("test_message_1", [])) == ["test_message_2", "test_message_1"]
    ensures MoveToFront("test_message_1", MoveToFront("test_message_2", MoveToFront("test_message_1", []))) == ["test_message_1", "test_message_2"]
  {
    var h1 := MoveToFront("test_message_1", []);
    assert h1 == ["test_message_1"];
    var h2 := MoveToFront("test_message_2", h1);
    assert Filter(h1, Other("test_message_2")) == h1;
    assert h2 == ["test_message_2", "test_message_1"];
    var h3 := MoveToFront("test_message_1", h2);
    assert Filter(h2, Other("test_message_1")) == ["test_message_2"];
  }

  /**
   * `MessageHistoryManager`: the ids of recently shown messages kept in the browser's
   * storage. `writable` is false when the storage refuses writes; such failures are
   * swallowed and leave the entry as it was.
   */
  class MessageHistoryManager {
    var store: Stored
    var writable: bool

    constructor(store: Stored, writable: bool)
      ensures this.store == store && this.writable == writable
    {
      this.store := store;
      this.writable := writable;
    }

    /** `getRecentIds`: the stored list, or an empty list when the entry is absent or unreadable. */
    function RecentIds(): (ids: seq<string>)
      reads this
      ensures store.Ids? ==> ids == store.ids
      ensures !store.Ids? ==> ids == []
    {
      match store
      case Ids(ids) => ids
      case _ => []
    }

    /** `addToHistory`: moves `id` to the front of the stored list, when the storage takes writes. */
    method AddToHistory(id: string)
      modifies this
      ensures writable == old(writable)
      ensures writable ==> store == Ids(MoveToFront(id, old(RecentIds())))
      ensures !writable ==> store == old(store)
      ensures writable ==> RecentIds()[0] == id && |RecentIds()| <= MaxHistory
    {
      var history := RecentIds();
      var updated := MoveToFront(id, history);
      if writable {
        store := Ids(updated);
      }
    }

    /** `clearHistory`: removes the entry, when the storage takes writes. */
    method ClearHistory()
      modifies this
      ensures writable == old(writable)
      ensures writable ==> store == Absent && RecentIds() == []
      ensures !writable ==> store == old(store)
    {
      if writable {
        store := Absent;
      }
    }
  }

  /**
   * `getEncouragementMessage`: classifies the situation with the time of day taken from
   * `hour`, draws a message with `u` avoiding the stored history, and records it.
   */
  method GetEncouragementMessage(completionRate: int, totalTasks: int, completedTasks: int, hasGoal: bool,
                                 hour: int, u: real, history: MessageHistoryManager)
    returns (message: EncouragementMessage)
    requires 0.0 <= u < 1.0
    modifies history
    ensures message in EncouragementMessages
    ensures message == RandomEncouragementMessage(EncouragementMessages,
      ContextsFor(completionRate, completedTasks, hasGoal, Some(TimeOfDayOf(hour))), old(history.RecentIds()), u)
    ensures history.writable == old(history.writable)
    ensures history.writable ==> history.store == Ids(MoveToFront(message.id, old(history.RecentIds())))
    ensures !history.writable ==> history.store == old(history.store)
  {
    var timeOfDay := TimeOfDayOf(hour);
    var contexts := GetCurrentContext(completionRate, totalTasks, completedTasks, hasGoal, Some(timeOfDay));
    var recentIds := history.RecentIds();
    message := RandomEncouragementMessage(EncouragementMessages, contexts, recentIds, u);
    history.AddToHistory(message.id);
  }
}
