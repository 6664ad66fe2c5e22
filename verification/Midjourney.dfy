/** Pollers that copy the upstream state of a drawing task into its row and refund it when it failed.

    Several pollers may hold a snapshot of the row; a write is guarded by the status of the snapshot. The
    theorems say exactly when a refunded task can be refunded again. */
module Midjourney {

  const DONE := "100%"
  const FAILURE := "FAILURE"
  const TIMEOUT_REASON := "上游任务超时（超过1小时）"

  /** The columns that are only copied and compared. */
  datatype Details = Details(promptEn: string, state: string, submitTime: int, startTime: int, finishTime: int,
                             imageUrl: string, videoUrl: string, videoUrls: string)

  datatype Option<T> = None | Some(value: T)

  datatype Task = Task(code: int, progress: string, status: string, failReason: string, details: Details,
                       properties: string, buttons: string, quota: int)

  /** What the upstream reports about a task; the lists are given as they would be stored. */
  datatype Item = Item(progress: string, status: string, failReason: string, details: Details,
                       properties: Option<string>, buttons: Option<string>)

  // ----- one response item -----

  /** After an hour an unfinished task is taken to have failed. */
  function Judged(task: Task, item: Item, late: bool): Item {
    if late && task.progress != DONE then item.(failReason := TIMEOUT_REASON, status := FAILURE) else item
  }

  predicate NeedsUpdate(task: Task, item: Item) {
    || task.code != 1 || task.progress != item.progress || task.details != item.details
    || task.status != item.status || task.failReason != item.failReason
    || (task.progress != DONE && item.failReason != "")
  }

  predicate HasFailed(item: Item) {
    (item.progress != DONE && item.failReason != "") || (item.progress == DONE && item.status == FAILURE)
  }

  function Copied(task: Task, item: Item): Task {
    Task(1, if HasFailed(item) then DONE else item.progress, item.status, item.failReason, item.details,
         if item.properties.Some? then item.properties.value else task.properties,
         if item.buttons.Some? then item.buttons.value else task.buttons, task.quota)
  }

  datatype Effect = Effect(row: Task, task: Task, refunded: bool)

  /** Handling one item: the stored row, the poller's copy, and whether the quota is given back. */
  function Handle(row: Task, task: Task, reported: Item, late: bool): Effect {
    var item := Judged(task, reported, late);
    if !NeedsUpdate(task, item) then Effect(row, task, false)
    else
      var next := Copied(task, item);
      var won := row.status == task.status;
      Effect(if won then next else row, next, won && HasFailed(item) && task.quota != 0)
  }

  /** The stored row of the task. */
  class Row {
    var stored: Task
    var refunds: nat

    constructor (task: Task)
      ensures stored == task && refunds == 0
    {
      stored := task;
      refunds := 0;
    }

    /** Writes only if the stored status is still the expected one. */
    method UpdateWithStatus(task: Task, fromStatus: string) returns (won: bool)
      modifies this`stored
      ensures won <==> old(stored).status == fromStatus
      ensures stored == if won then task else old(stored)
    {
      won := stored.status == fromStatus;
      if won {
        stored := task;
      }
    }

    method Refund()
      modifies this`refunds
      ensures refunds == old(refunds) + 1
    {
      refunds := refunds + 1;
    }
  }

  /** A poller's copy of the row. */
  class Copy {
    var task: Task

    constructor (task: Task)
      ensures this.task == task
    {
      this.task := task;
    }

    method HandleItem(row: Row, reported: Item, late: bool)
      modifies this, row
      ensures var effect := Handle(old(row.stored), old(task), reported, late);
              && row.stored == effect.row && task == effect.task
              && row.refunds == old(row.refunds) + if effect.refunded then 1 else 0
    {
      var item := reported;
      if late && task.progress != DONE {
        item := item.(failReason := TIMEOUT_REASON);
        item := item.(status := FAILURE);
      }
      if !NeedsUpdate(task, item) {
        return;
      }
      var preStatus := task.status;
      task := task.(code := 1, progress := item.progress, details := item.details, status := item.status,
                    failReason := item.failReason);
      if item.properties.Some? {
        task := task.(properties := item.properties.value);
      }
      if item.buttons.Some? {
        task := task.(buttons := item.buttons.value);
      }
      var shouldReturnQuota := false;
      if (task.progress != DONE && item.failReason != "") || (task.progress == DONE && task.status == FAILURE) {
        task := task.(progress := DONE);
        if task.quota != 0 {
          shouldReturnQuota := true;
        }
      }
      var won := row.UpdateWithStatus(task, preStatus);
      if won && shouldReturnQuota {
        row.Refund();
      }
    }
  }

  // ----- many pollers -----

  /** The row, the snapshots that pollers hold, and how often the task was refunded. */
  datatype System = System(row: Task, held: map<nat, Task>, refunds: nat)

  datatype Step =
    | Load(poller: nat)                                   // reads the unfinished tasks
    | Answered(poller: nat, item: Item, late: bool)       // the poll's one item for the task
    | ChannelGone(poller: nat, reason: string)            // the task is failed without looking at its status
    | Unanswered(poller: nat)

  function Next(s: System, step: Step): System {
    match step
    case Load(p) => s.(held := if s.row.progress != DONE then s.held[p := s.row] else s.held - {p})
    case Unanswered(p) => s.(held := s.held - {p})
    case ChannelGone(p, reason) =>
      s.(row := if p in s.held then s.row.(status := FAILURE, progress := DONE, failReason := reason) else s.row,
         held := s.held - {p})
    case Answered(p, item, late) =>
      if p !in s.held then s
      else
        var effect := Handle(s.row, s.held[p], item, late);
        System(effect.row, s.held - {p}, s.refunds + if effect.refunded then 1 else 0)
  }

  function Run(s: System, steps: seq<Step>): System
    decreases |steps|
  {
    if steps == [] then s else Run(Next(s, steps[0]), steps[1..])
  }

  /** Snapshots are of unfinished rows, and the quota never changes. */
  ghost predicate Inv(s: System) {
    forall p | p in s.held :: s.held[p].progress != DONE && s.held[p].quota == s.row.quota
  }

  lemma NextKeepsInv(s: System, step: Step)
    requires Inv(s)
    ensures Inv(Next(s, step)) && Next(s, step).row.quota == s.row.quota
  {
  }

  /** Some snapshot still matches the stored status, or will once another poller fails the task. */
  ghost predicate Exposed(s: System) {
    exists p | p in s.held ::
      s.held[p].status == s.row.status || (s.held[p].status == FAILURE && exists q | q in s.held :: q != p)
  }

  lemma NothingMatches(s: System, step: Step)
    requires Inv(s) && s.row.progress == DONE && !Exposed(s)
    ensures var t := Next(s, step); t.row.progress == DONE && !Exposed(t) && t.refunds == s.refunds
  {
    if step.ChannelGone? && step.poller in s.held {
      forall p | p in s.held && p != step.poller ensures s.held[p].status != FAILURE {
        assert step.poller in s.held && step.poller != p;
      }
    }
  }

  lemma {:induction false} StaysRefunded(s: System, steps: seq<Step>)
    requires Inv(s) && s.row.progress == DONE && !Exposed(s)
    ensures Run(s, steps).refunds == s.refunds
    decreases |steps|
  {
    if steps != [] {
      NothingMatches(s, steps[0]);
      NextKeepsInv(s, steps[0]);
      StaysRefunded(Next(s, steps[0]), steps[1..]);
    }
  }

  /** An item that makes any poller refund: it says that the task failed. */
  function FailedItem(details: Details): Item {
    Item("", FAILURE, TIMEOUT_REASON, details, None, None)
  }

  lemma MatchRefunds(s: System, p: nat)
    requires Inv(s) && s.row.quota != 0 && p in s.held && s.held[p].status == s.row.status
    ensures Next(s, Answered(p, FailedItem(s.row.details), false)).refunds == s.refunds + 1
  {
  }

  /** A finished task can be refunded (again) by some continuation exactly when it is exposed. */
  lemma RefundableIffExposed(s: System)
    requires Inv(s) && s.row.progress == DONE && s.row.quota != 0
    ensures (exists steps :: Run(s, steps).refunds > s.refunds) <==> Exposed(s)
  {
    if Exposed(s) {
      var p :| && p in s.held
               && (|| s.held[p].status == s.row.status
                   || (s.held[p].status == FAILURE && exists q | q in s.held :: q != p));
      var answer := Answered(p, FailedItem(s.row.details), false);
      if s.held[p].status == s.row.status {
        MatchRefunds(s, p);
        RunOne(s, answer);
        assert Run(s, [answer]).refunds > s.refunds;
      } else {
        var q :| q in s.held && q != p;
        var gone := ChannelGone(q, "");
        var t := Next(s, gone);
        NextKeepsInv(s, gone);
        MatchRefunds(t, p);
        RunTwo(s, gone, answer);
        assert Run(s, [gone, answer]).refunds > s.refunds;
      }
    } else {
      forall steps ensures Run(s, steps).refunds == s.refunds {
        StaysRefunded(s, steps);
      }
    }
  }

  lemma RunOne(s: System, a: Step)
    ensures Run(s, [a]) == Next(s, a)
  {
    assert [a][1..] == [];
  }

  lemma RunTwo(s: System, a: Step, b: Step)
    ensures Run(s, [a, b]) == Next(Next(s, a), b)
  {
    assert [a, b][1..] == [b];
    RunOne(Next(s, a), b);
  }

  // ----- what an answer does -----

  /** The answer means that the task has failed: it is more than an hour old, or the upstream gives a reason before the
      end, or it says so at the end. */
  ghost predicate MeansFailure(item: Item, late: bool) {
    || late
    || (item.progress != "100%" && item.failReason != "")
    || (item.progress == "100%" && item.status == "FAILURE")
  }

  /** A snapshot of an unfinished task is refunded by its answer if and only if the stored status is still that of the
      snapshot, the answer means failure, and something was paid. */
  lemma RefundedIffFailed(s: System, p: nat, item: Item, late: bool)
    requires Inv(s) && p in s.held
    ensures var t := Next(s, Answered(p, item, late));
            && t.held == s.held - {p}
            && t.refunds == s.refunds + if && s.held[p].status == s.row.status
                                           && MeansFailure(item, late) && s.row.quota != 0 then 1 else 0
  {
  }

  /** When the snapshot is the row as it is stored, the row shows the answer: a failed task is finished, one that is
      late has failed for that reason, whatever the upstream says, and properties and buttons that are not sent stay. */
  lemma RowShowsAnswer(s: System, p: nat, item: Item, late: bool)
    requires Inv(s) && p in s.held && s.held[p] == s.row
    ensures var row := Next(s, Answered(p, item, late)).row;
            && row.progress == (if MeansFailure(item, late) then "100%" else item.progress)
            && row.status == (if late then "FAILURE" else item.status)
            && row.failReason == (if late then TIMEOUT_REASON else item.failReason)
            && row.code == 1 && row.details == item.details && row.quota == s.row.quota
            && (item.properties.None? ==> row.properties == s.row.properties)
            && (item.buttons.None? ==> row.buttons == s.row.buttons)
            && (row != s.row ==> && (item.properties.Some? ==> row.properties == item.properties.value)
                                 && (item.buttons.Some? ==> row.buttons == item.buttons.value))
  {
  }

  /** The row is written if and only if the answer means failure or tells something new; else even new properties and
      buttons are left out. */
  lemma NothingNewIsNotWritten(s: System, p: nat, item: Item, late: bool)
    requires Inv(s) && p in s.held && s.held[p] == s.row
    ensures var row := Next(s, Answered(p, item, late)).row;
            var same := && s.row.code == 1 && item.progress == s.row.progress && item.details == s.row.details
                        && item.status == s.row.status && item.failReason == s.row.failReason;
            if same && !MeansFailure(item, late) then row == s.row
            else && (item.properties.Some? ==> row.properties == item.properties.value)
                 && (item.buttons.Some? ==> row.buttons == item.buttons.value)
  {
  }

  /** When the channel is gone the task is failed for that reason, and not refunded. */
  lemma GoneChannelFails(s: System, p: nat, reason: string)
    requires p in s.held
    ensures Next(s, ChannelGone(p, reason))
         == System(s.row.(status := "FAILURE", progress := "100%", failReason := reason), s.held - {p}, s.refunds)
  {
  }

  /** A snapshot whose status is not the stored one any more changes nothing. */
  lemma StaleAnswerIsIgnored(s: System, p: nat, item: Item, late: bool)
    requires p in s.held && s.held[p].status != s.row.status
    ensures Next(s, Answered(p, item, late)) == s.(held := s.held - {p})
  {
  }

  /** A task that the upstream reports as done, but only after an hour, is failed and refunded all the same. */
  lemma LateSuccessIsRefunded(s: System, p: nat, item: Item)
    requires Inv(s) && p in s.held && s.held[p] == s.row && s.row.quota != 0
    requires item.progress == "100%" && item.status == "SUCCESS"
    ensures var t := Next(s, Answered(p, item, true));
            t.row.status == "FAILURE" && t.row.progress == "100%" && t.refunds == s.refunds + 1
  {
    RefundedIffFailed(s, p, item, true);
    RowShowsAnswer(s, p, item, true);
  }

  // ----- at most one refund -----

  /** No refund in the run leaves the task exposed. */
  ghost predicate RefundsFinal(s: System, steps: seq<Step>)
    decreases |steps|
  {
    steps != [] ==>
      var t := Next(s, steps[0]);
      (t.refunds > s.refunds ==> !Exposed(t)) && RefundsFinal(t, steps[1..])
  }

  lemma RefundFinishes(s: System, step: Step)
    requires Next(s, step).refunds > s.refunds
    ensures Next(s, step).row.progress == DONE && Next(s, step).refunds == s.refunds + 1
  {
  }

  /** The task is refunded at most once in a run whose refunds never leave it exposed. */
  lemma {:induction false} RefundedAtMostOnce(s: System, steps: seq<Step>)
    requires Inv(s) && RefundsFinal(s, steps)
    ensures Run(s, steps).refunds <= s.refunds + 1
    decreases |steps|
  {
    if steps != [] {
      var t := Next(s, steps[0]);
      NextKeepsInv(s, steps[0]);
      if t.refunds > s.refunds {
        RefundFinishes(s, steps[0]);
        StaysRefunded(t, steps[1..]);
      } else {
        RefundedAtMostOnce(t, steps[1..]);
      }
    }
  }

  /** The step is not that of another poller. */
  ghost predicate By(step: Step, p: nat) {
    step.poller == p
  }

  /** A single poller needs no assumption about the statuses. */
  lemma {:induction false} SinglePollerRefundsOnce(s: System, steps: seq<Step>, p: nat)
    requires s.held.Keys <= {p} && forall i | 0 <= i < |steps| :: By(steps[i], p)
    ensures RefundsFinal(s, steps)
    decreases |steps|
  {
    if steps != [] {
      assert By(steps[0], p);
      SinglePollerRefundsOnce(Next(s, steps[0]), steps[1..], p);
    }
  }

  /** The upstream says FAILURE when, and only when, it reports a failed task. */
  ghost predicate Honest(step: Step) {
    step.Answered? ==> (step.item.status == FAILURE <==> HasFailed(step.item))
  }

  /** Then no unfinished row has the status FAILURE, and no number of pollers refunds twice. */
  lemma {:induction false} HonestUpstreamRefundsOnce(s: System, steps: seq<Step>)
    requires Inv(s) && (s.row.status == FAILURE ==> s.row.progress == DONE)
    requires forall p | p in s.held :: s.held[p].status != FAILURE
    requires forall i | 0 <= i < |steps| :: Honest(steps[i])
    ensures RefundsFinal(s, steps)
    decreases |steps|
  {
    if steps != [] {
      assert Honest(steps[0]);
      NextKeepsInv(s, steps[0]);
      HonestUpstreamRefundsOnce(Next(s, steps[0]), steps[1..]);
    }
  }

  // ----- where the guard is not enough -----

  function Report(details: Details, status: string, failReason: string): Item {
    Item("50%", status, failReason, details, None, None)
  }

  /** Every refunding update changes the stored status, and yet the task is refunded twice: a status that comes
      back lets an old snapshot pass the guard. */
  lemma ChangingTheStatusIsNotEnough(row: Task, a: string, b: string)
    requires a != b && row.status == a && row.quota != 0 && row.progress == "10%"
    ensures var d := row.details;
            var s0 := Next(Next(System(row, map[], 0), Load(0)), Load(1));
            var s1 := Next(Next(s0, Answered(1, Report(d, b, ""), false)), Load(1));
            var s2 := Next(s1, Answered(1, Report(d, a, "broken"), false));
            var s3 := Next(s2, Answered(0, Report(d, b, "broken"), false));
            && s1.refunds == 0 && s2.refunds == 1 && s3.refunds == 2
            && s1.row.status != s2.row.status && s2.row.status != s3.row.status
  {
  }

  /** A second item for the same task in one response refunds again when its reason differs. */
  lemma DuplicateRefundsAgain(row: Task, task: Task, first: Item, second: Item)
    requires row.status == task.status && task.quota != 0
    requires first.status == FAILURE == second.status && first.progress == DONE == second.progress
    requires NeedsUpdate(task, first) && first.failReason != second.failReason
    ensures var once := Handle(row, task, first, false);
            once.refunded && Handle(once.row, once.task, second, false).refunded
  {
  }
}
