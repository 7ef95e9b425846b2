/**
 * The savings-goal logic of src/pages/Goals.tsx: contributions, grouping by priority,
 * ordering by progress, and what a goal card shows (completion, bar colour, overdue,
 * days left).
 */
module Goals {
  import opened Calendar
  import opened Records
  import opened Seqs
  import opened Progress
  import opened IdCollections
  import opened FinanceContext

  /** `currentAmount / targetAmount`, the sort key. */
  function Ratio(g: Goal): real {
    g.currentAmount as real / g.targetAmount as real
  }

  /** `progressPercent`. */
  function ProgressPercent(g: Goal): real {
    Percent(g.currentAmount, g.targetAmount)
  }

  /** `isCompleted`: progress of 100 percent or more. */
  predicate IsCompleted(g: Goal) {
    ProgressPercent(g) >= 100.0
  }

  /** The Contribute button is offered only on goals that are not completed. */
  predicate ShowContribute(g: Goal) {
    !IsCompleted(g)
  }

  datatype GoalColor = Success | Primary | Warning | Danger

  /** Success when completed, else primary above 75 percent, warning above 25, danger otherwise. */
  function BarColor(g: Goal): GoalColor {
    if IsCompleted(g) then Success
    else if ProgressPercent(g) > 75.0 then Primary
    else if ProgressPercent(g) > 25.0 then Warning
    else Danger
  }

  /** A goal is completed exactly when the saved amount reaches the target. */
  lemma CompletedIff(g: Goal)
    ensures IsCompleted(g) <==> g.currentAmount >= g.targetAmount
    ensures ShowContribute(g) <==> g.currentAmount < g.targetAmount
  {
    PercentAbove(g.currentAmount, g.targetAmount, 100);
  }

  /** The colour bands in terms of the amounts. */
  lemma BarColorBands(g: Goal)
    ensures BarColor(g) == Success <==> g.currentAmount >= g.targetAmount
    ensures BarColor(g) == Primary <==> g.currentAmount < g.targetAmount && 100 * g.currentAmount > 75 * g.targetAmount
    ensures BarColor(g) == Warning <==> 25 * g.targetAmount < 100 * g.currentAmount <= 75 * g.targetAmount
    ensures BarColor(g) == Danger <==> 100 * g.currentAmount <= 25 * g.targetAmount
  {
    CompletedIff(g);
    PercentAbove(g.currentAmount, g.targetAmount, 75);
    PercentAbove(g.currentAmount, g.targetAmount, 25);
  }

  /** The bar is full exactly when the goal is completed, and never wider than full. */
  lemma GoalBarWidth(g: Goal)
    ensures 0.0 <= BarWidth(ProgressPercent(g)) <= 100.0
    ensures BarWidth(ProgressPercent(g)) == 100.0 <==> IsCompleted(g)
  {
    BarWidthSpec(g.currentAmount, g.targetAmount);
    CompletedIff(g);
  }

  /**
   * `handleContribute`: the `prompt` answer is `entered` (`None` when it is cancelled,
   * empty or not a number). A positive amount raises the saved amount, capped at the
   * target; anything else changes nothing.
   */
  function Contributed(g: Goal, entered: Option<int>): Option<Goal> {
    match entered
    case None => None
    case Some(a) =>
      if a <= 0 then None
      else Some(g.(currentAmount := if g.currentAmount + a < g.targetAmount then g.currentAmount + a else g.targetAmount))
  }

  /**
   * A contribution is refused unless it is positive. An accepted one changes only the
   * saved amount, which becomes the old amount plus the contribution, but never more
   * than the target; on a goal still open it always grows, and the goal is completed
   * afterwards exactly when the contribution covers what was missing.
   */
  lemma ContributionSpec(g: Goal, entered: Option<int>)
    ensures Contributed(g, entered).None? <==> entered.None? || entered.value <= 0
    ensures Contributed(g, entered).Some? ==>
              var g' := Contributed(g, entered).value;
              g' == g.(currentAmount := g'.currentAmount) &&
              g'.currentAmount <= g.targetAmount &&
              (g'.currentAmount == g.currentAmount + entered.value || g'.currentAmount == g.targetAmount) &&
              g'.currentAmount <= g.currentAmount + entered.value &&
              (ShowContribute(g) ==> g'.currentAmount > g.currentAmount) &&
              (IsCompleted(g') <==> g.currentAmount + entered.value >= g.targetAmount)
  {
    if Contributed(g, entered).Some? {
      var g' := Contributed(g, entered).value;
      CompletedIff(g);
      CompletedIff(g');
    }
  }

  /** `handleContribute` on the store: an accepted contribution goes through `updateGoal`. */
  method HandleContribute(store: FinanceStore, g: Goal, entered: Option<int>)
    modifies store
    ensures store.goals == match Contributed(g, entered)
                           case None => old(store.goals)
                           case Some(g') => ReplaceById(old(store.goals), GoalId, g')
    ensures store.transactions == old(store.transactions) && store.categories == old(store.categories)
    ensures store.budgets == old(store.budgets) && store.user == old(store.user)
    ensures old(store.Valid()) ==> store.Valid()
  {
    var r := Contributed(g, entered);
    if r.Some? {
      store.UpdateGoal(r.value);
    }
  }

  /** The goals of one priority, in their order. */
  function OfPriority(goals: seq<Goal>, p: Priority): seq<Goal> {
    if goals == [] then []
    else
      var g := goals[|goals| - 1];
      OfPriority(goals[..|goals| - 1], p) + (if g.priority == p then [g] else [])
  }

  /** `groupedGoals`: the `reduce` that pushes each goal onto the list of its priority. */
  method GroupGoals(goals: seq<Goal>) returns (high: seq<Goal>, medium: seq<Goal>, low: seq<Goal>)
    ensures high == OfPriority(goals, High)
    ensures medium == OfPriority(goals, Medium)
    ensures low == OfPriority(goals, Low)
  {
    high, medium, low := [], [], [];
    var i := 0;
    while i < |goals|
      invariant 0 <= i <= |goals|
      invariant high == OfPriority(goals[..i], High)
      invariant medium == OfPriority(goals[..i], Medium)
      invariant low == OfPriority(goals[..i], Low)
    {
      var g := goals[i];
      assert goals[..i + 1][..i] == goals[..i];
      match g.priority {
        case High => high := high + [g];
        case Medium => medium := medium + [g];
        case Low => low := low + [g];
      }
      i := i + 1;
    }
    assert goals[..|goals|] == goals;
  }

  /** Grouping distributes over concatenation, so each group keeps the goals' order. */
  lemma {:induction false} OfPriorityAppend(a: seq<Goal>, b: seq<Goal>, p: Priority)
    ensures OfPriority(a + b, p) == OfPriority(a, p) + OfPriority(b, p)
    decreases |b|
  {
    if b == [] {
      assert a + b == a;
    } else {
      var b', g := b[..|b| - 1], b[|b| - 1];
      assert (a + b)[..|a + b| - 1] == a + b';
      assert (a + b)[|a + b| - 1] == g;
      OfPriorityAppend(a, b', p);
    }
  }

  /**
   * The three groups partition the goals: together they hold every goal exactly as
   * often as the input does.
   */
  lemma GroupsPartition(goals: seq<Goal>)
    ensures multiset(OfPriority(goals, High)) + multiset(OfPriority(goals, Medium)) + multiset(OfPriority(goals, Low))
            == multiset(goals)
    ensures |OfPriority(goals, High)| + |OfPriority(goals, Medium)| + |OfPriority(goals, Low)| == |goals|
  {
    var h, m, l := multiset(OfPriority(goals, High)), multiset(OfPriority(goals, Medium)), multiset(OfPriority(goals, Low));
    forall x ensures (h + m + l)[x] == multiset(goals)[x] {
      OfPriorityCount(goals, High, x);
      OfPriorityCount(goals, Medium, x);
      OfPriorityCount(goals, Low, x);
    }
    assert h + m + l == multiset(goals);
    assert |h + m + l| == |h| + |m| + |l|;
  }

  /** A group holds each goal of its priority as often as the input, and no other goal. */
  lemma {:induction false} OfPriorityCount(goals: seq<Goal>, p: Priority, x: Goal)
    ensures multiset(OfPriority(goals, p))[x] == if x.priority == p then multiset(goals)[x] else 0
  {
    if goals != [] {
      var rest, g := goals[..|goals| - 1], goals[|goals| - 1];
      OfPriorityCount(rest, p, x);
      assert goals == rest + [g];
    }
  }

  /** A goal is in a group exactly when it is one of the goals and has that priority. */
  lemma {:induction false} OfPriorityMembers(goals: seq<Goal>, p: Priority)
    ensures forall g :: g in OfPriority(goals, p) <==> g in goals && g.priority == p
  {
    if goals != [] {
      var rest, g := goals[..|goals| - 1], goals[|goals| - 1];
      OfPriorityMembers(rest, p);
      assert goals == rest + [g];
    }
  }

  /** `sortGoals`: a copy of the goals, most advanced first. */
  function SortGoals(goals: seq<Goal>): (r: seq<Goal>)
    ensures SortedDesc(r, Ratio)
    ensures multiset(r) == multiset(goals)
  {
    SortDesc(goals, Ratio)
  }

  /**
   * A goal is shown as overdue when it has a deadline, is not completed, and the
   * deadline is before now; `today` is the current date, and now is later than the
   * midnight that starts it, so a deadline of today is already past.
   */
  predicate Overdue(g: Goal, today: Date) {
    g.deadline.Some? && !IsCompleted(g) && DayNumber(g.deadline.value) <= DayNumber(today)
  }

  /** `daysBetween`: the distance between two dates in whole days. */
  function DaysBetween(a: Date, b: Date): nat {
    if DayNumber(b) >= DayNumber(a) then DayNumber(b) - DayNumber(a) else DayNumber(a) - DayNumber(b)
  }

  /** Overdue only ever applies to open goals with a past deadline. */
  lemma OverdueSpec(g: Goal, today: Date)
    ensures Overdue(g, today) <==>
              g.deadline.Some? && g.currentAmount < g.targetAmount && DayNumber(g.deadline.value) <= DayNumber(today)
  {
    CompletedIff(g);
  }

  /**
   * The distance is symmetric and zero only from a date to itself; `n` days back from
   * a date is `n` days away.
   */
  lemma DaysBetweenSpec(a: Date, b: Date, n: nat)
    requires ValidDate(a) && ValidDate(b)
    ensures DaysBetween(a, b) == DaysBetween(b, a)
    ensures DaysBetween(a, b) == 0 <==> a == b
    ensures DaysBetween(MinusDays(a, n), a) == n
  {
    if DayNumber(a) == DayNumber(b) {
      DayNumberInjective(a, b);
    }
    MinusDaysNumber(a, n);
  }
}

/**
 * The dashboard's goal panel, src/components/dashboard/GoalsProgress.tsx: the three
 * most advanced goals with a progress bar and a badge coloured by priority.
 */
module GoalsProgress {
  import opened Records
  import opened Seqs
  import opened Goals

  /** `sortedGoals.slice(0, 3)`. */
  function TopGoals(goals: seq<Goal>): seq<Goal> {
    Take(SortGoals(goals), 3)
  }

  /**
   * At most three goals are shown, most advanced first, all taken from the input; a
   * goal not shown is no further along than any shown; with three goals or fewer,
   * all are shown.
   */
  lemma TopGoalsSpec(goals: seq<Goal>)
    ensures |TopGoals(goals)| <= 3
    ensures SortedDesc(TopGoals(goals), Ratio)
    ensures forall g :: g in TopGoals(goals) ==> g in goals
    ensures forall g :: g in goals && g !in TopGoals(goals) ==>
              |TopGoals(goals)| == 3 && forall h :: h in TopGoals(goals) ==> Ratio(h) >= Ratio(g)
    ensures |goals| <= 3 ==> multiset(TopGoals(goals)) == multiset(goals)
  {
    TakeKeepsLargest(SortGoals(goals), Ratio, 3);
    TopOfSorted(goals, Ratio, 3);
  }

  datatype Badge = PrimaryBadge | WarningBadge | DangerBadge

  /** The `priorityColor` lookup: low → primary, medium → warning, high → danger. */
  function PriorityColor(p: Priority): Badge {
    match p
    case Low => PrimaryBadge
    case Medium => WarningBadge
    case High => DangerBadge
  }

  /** Every priority has a badge colour, and different priorities get different ones. */
  lemma PriorityColorInjective(p: Priority, q: Priority)
    ensures PriorityColor(p) == PriorityColor(q) <==> p == q
  {
  }
}
