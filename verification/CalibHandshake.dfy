/**
 * Passing a new calibration to the group threads: the tuner sets a bit per group and waits until all bits
 * are clear; each group thread, before it handles a message, prepares its algorithms if its bit is set and
 * clears the bit. Each call holds the update mutex, so it is one step.
 */
module CalibHandshake {

  type Group = g: nat | g < 64

  datatype Step = Notify(mask: set<Group>) | Update(group: Group) | WaitDone

  class UpdateFlags {
    var mask: set<Group>
    /** History: the groups that prepared, in order. */
    ghost var prepared: seq<Group>

    constructor ()
      ensures mask == {} && prepared == []
    {
      mask := {};
      prepared := [];
    }

    method NotifyUpdate(groups: set<Group>)
      modifies this`mask
      ensures mask == After(old(mask), Notify(groups))
    {
      mask := mask + groups;
    }

    method UpdateCalib(group: Group)
      modifies this
      ensures mask == After(old(mask), Update(group))
      ensures prepared == old(prepared) + if Prepares(old(mask), Update(group), group) then [group] else []
    {
      var needUpdate := mask * {group};
      assert group in mask <==> group in needUpdate;
      if needUpdate == {} {
        assert mask - {group} == mask;
        return;
      }
      prepared := prepared + [group];
      mask := mask - needUpdate;
    }
  }

  // ----- Runs -----

  function After(mask: set<Group>, step: Step): set<Group> {
    match step
    case Notify(groups) => mask + groups
    case Update(group) => mask - {group}
    case WaitDone => mask
  }

  /** Whether the step makes this group prepare. */
  predicate Prepares(mask: set<Group>, step: Step, group: Group) {
    step == Update(group) && group in mask
  }

  predicate Notifies(step: Step, group: Group) {
    step.Notify? && group in step.mask
  }

  /** The bits that are set before step i. */
  function MaskAt(steps: seq<Step>, i: nat): set<Group>
    requires i <= |steps|
  {
    if i == 0 then {} else After(MaskAt(steps, i - 1), steps[i - 1])
  }

  /** Waiting only returns when no bit is set. */
  ghost predicate Run(steps: seq<Step>) {
    forall i :: 0 <= i < |steps| && steps[i].WaitDone? ==> MaskAt(steps, i) == {}
  }

  /** How often the group prepares in the steps from i to j. */
  function PrepareCount(steps: seq<Step>, group: Group, i: nat, j: nat): nat
    requires i <= j <= |steps|
  {
    if i == j then 0
    else PrepareCount(steps, group, i, j - 1) + if Prepares(MaskAt(steps, j - 1), steps[j - 1], group) then 1 else 0
  }

  function NotifyCount(steps: seq<Step>, group: Group, i: nat, j: nat): nat
    requires i <= j <= |steps|
  {
    if i == j then 0 else NotifyCount(steps, group, i, j - 1) + if Notifies(steps[j - 1], group) then 1 else 0
  }

  function Pending(steps: seq<Step>, group: Group, i: nat): nat
    requires i <= |steps|
  {
    if group in MaskAt(steps, i) then 1 else 0
  }

  /**
   * A pending request is kept until the group prepares: over any stretch, a group prepares at least once if
   * its bit was set and is not any more, and never more often than it was notified, counting the bit it had.
   */
  lemma {:induction false} PreparesFollowNotifies(steps: seq<Step>, group: Group, i: nat, j: nat)
    requires i <= j <= |steps|
    ensures Pending(steps, group, i) <= PrepareCount(steps, group, i, j) + Pending(steps, group, j)
    ensures PrepareCount(steps, group, i, j) + Pending(steps, group, j)
         <= Pending(steps, group, i) + NotifyCount(steps, group, i, j)
    decreases j
  {
    if i < j {
      PreparesFollowNotifies(steps, group, i, j - 1);
    }
  }

  /**
   * When the wait after a notification returns, every notified group has prepared in between: exactly once if
   * it was not notified again, and otherwise at most once for each notification.
   */
  lemma NotifiedGroupsHavePrepared(steps: seq<Step>, i: nat, j: nat, group: Group)
    requires Run(steps)
    requires i < j < |steps| && Notifies(steps[i], group) && steps[j].WaitDone?
    ensures 1 <= PrepareCount(steps, group, i + 1, j) <= 1 + NotifyCount(steps, group, i + 1, j)
    ensures NotifyCount(steps, group, i + 1, j) == 0 ==> PrepareCount(steps, group, i + 1, j) == 1
  {
    assert group in MaskAt(steps, i + 1);
    assert group !in MaskAt(steps, j);
    PreparesFollowNotifies(steps, group, i + 1, j);
  }

  /** A group that was never notified never prepares. */
  lemma {:induction false} OnlyNotifiedGroupsPrepare(steps: seq<Step>, group: Group, j: nat)
    requires j <= |steps|
    ensures PrepareCount(steps, group, 0, j) <= NotifyCount(steps, group, 0, j)
  {
    PreparesFollowNotifies(steps, group, 0, j);
  }
}
