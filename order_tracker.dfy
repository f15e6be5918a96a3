/** The order progress bar of the web client
    (components/Orders/OrderTracker.tsx): five steps, the index of the
    current one derived from the status string, and which steps and lines
    are highlighted. */
module OrderTracker {
  import opened Common
  import opened OrderModel

  const PendingName: string := "PENDING"
  const ConfirmedName: string := "CONFIRMED"
  const PreparingName: string := "PREPARING"
  const ReadyName: string := "READY_FOR_PICKUP"
  const OnTheWayName: string := "OUT_FOR_DELIVERY"
  const DeliveredName: string := "DELIVERED"
  const CancelledName: string := "CANCELLED"
  const RejectedName: string := "REJECTED"

  /** The step values, in display order. */
  const Steps: seq<string> := [PendingName, ConfirmedName, PreparingName, OnTheWayName, DeliveredName]

  /** The status strings the server sends. */
  function StatusName(s: OrderStatus): string {
    match s
    case Pending => PendingName
    case Confirmed => ConfirmedName
    case Preparing => PreparingName
    case ReadyForPickup => ReadyName
    case OutForDelivery => OnTheWayName
    case Delivered => DeliveredName
    case Cancelled => CancelledName
  }

  /** The statuses that show the cancelled view instead of the steps. */
  predicate ShowsCancelled(status: string) {
    status == CancelledName || status == RejectedName
  }

  /** getCurrentStepIndex: -1 for a cancelled or rejected order, step 2 for
      an order ready for pickup, the matching step otherwise, and step 0 for
      any status without a step. */
  function CurrentStepIndex(status: string): (i: int)
    ensures -1 <= i < |Steps|
    ensures i == -1 <==> ShowsCancelled(status)
  {
    if ShowsCancelled(status) then -1
    else
      var index := FirstIndex(Steps, (v: string) => v == status);
      if status == ReadyName then 2
      else if index != -1 then index else 0
  }

  /** The whole mapping, status by status. */
  lemma StepTable()
    ensures CurrentStepIndex(StatusName(Pending)) == 0
    ensures CurrentStepIndex(StatusName(Confirmed)) == 1
    ensures CurrentStepIndex(StatusName(Preparing)) == 2
    ensures CurrentStepIndex(StatusName(ReadyForPickup)) == 2
    ensures CurrentStepIndex(StatusName(OutForDelivery)) == 3
    ensures CurrentStepIndex(StatusName(Delivered)) == 4
    ensures CurrentStepIndex(StatusName(Cancelled)) == -1
    ensures CurrentStepIndex(RejectedName) == -1
  {
    StepsDistinct();
    StepAt(0);
    StepAt(1);
    StepAt(2);
    StepAt(3);
    StepAt(4);
  }

  /** The five step values are pairwise different and none of them is a
      cancelled status or READY_FOR_PICKUP: length and the first two
      letters tell them apart. */
  lemma StepsDistinct()
    ensures forall i, j :: 0 <= i < j < |Steps| ==> Steps[i] != Steps[j]
    ensures forall k :: 0 <= k < |Steps| ==> !ShowsCancelled(Steps[k]) && Steps[k] != ReadyName
  {
    var len := [7, 9, 9, 16, 9];
    var first := ['P', 'C', 'P', 'O', 'D'];
    var second := ['E', 'O', 'R', 'U', 'E'];
    forall k | 0 <= k < |Steps|
      ensures |Steps[k]| == len[k] && Steps[k][0] == first[k] && Steps[k][1] == second[k]
    {
    }
    assert CancelledName[1] == 'A' && |RejectedName| == 8 && ReadyName[0] == 'R';
  }

  /** The step at index `k` shows step `k`, once the steps are known to
      differ from each other and from the statuses handled apart. */
  lemma StepAt(k: nat)
    requires k < |Steps|
    requires forall i, j :: 0 <= i < j < |Steps| ==> Steps[i] != Steps[j]
    requires forall k :: 0 <= k < |Steps| ==> !ShowsCancelled(Steps[k]) && Steps[k] != ReadyName
    ensures CurrentStepIndex(Steps[k]) == k
  {
  }

  /** A status string that is no step and not cancelled shows step 0. */
  lemma UnknownStatusIsFirstStep(status: string)
    requires !ShowsCancelled(status) && status != ReadyName
    requires forall k :: 0 <= k < |Steps| ==> Steps[k] != status
    ensures CurrentStepIndex(status) == 0
  {
  }

  /** The order's normal life, from placement to delivery. */
  const HappyPath: seq<OrderStatus> :=
    [Pending, Confirmed, Preparing, ReadyForPickup, OutForDelivery, Delivered]

  /** The step shown at each point of the normal life: the k-th status
      shows step k, except that ready-for-pickup shares step 2 with
      preparing. */
  lemma PathStep(k: nat)
    requires k < |HappyPath|
    ensures CurrentStepIndex(StatusName(HappyPath[k])) == if k <= 2 then k else k - 1
  {
    StepTable();
    if k == 0 {
      assert HappyPath[k] == Pending;
    } else if k == 1 {
      assert HappyPath[k] == Confirmed;
    } else if k == 2 {
      assert HappyPath[k] == Preparing;
    } else if k == 3 {
      assert HappyPath[k] == ReadyForPickup;
    } else if k == 4 {
      assert HappyPath[k] == OutForDelivery;
    } else {
      assert HappyPath[k] == Delivered;
    }
  }

  /** Along the normal life of an order the bar never moves back. */
  lemma ProgressNeverMovesBack(i: nat, j: nat)
    requires i <= j < |HappyPath|
    ensures CurrentStepIndex(StatusName(HappyPath[i])) <= CurrentStepIndex(StatusName(HappyPath[j]))
  {
    PathStep(i);
    PathStep(j);
  }

  /** Step `index` is highlighted as active. */
  predicate StepActive(index: int, current: int) {
    index <= current
  }

  /** The line after step `index` (drawn for every step but the last) is
      marked completed. */
  predicate LineCompleted(index: int, current: int) {
    index < |Steps| - 1 && index < current
  }

  /** What the bar shows: a cancelled order has no active step; otherwise
      the steps up to the current one are active, a completed line always
      leads to an active step, and a delivered order has every step active
      and every line completed. */
  lemma BarConsistent(status: string)
    ensures var c := CurrentStepIndex(status);
      && (ShowsCancelled(status) ==> forall k :: 0 <= k < |Steps| ==> !StepActive(k, c))
      && (!ShowsCancelled(status) ==> StepActive(0, c))
      && (forall k :: 0 <= k < |Steps| && LineCompleted(k, c) ==> StepActive(k, c) && StepActive(k + 1, c))
      && (status == DeliveredName ==>
            (forall k :: 0 <= k < |Steps| ==> StepActive(k, c))
            && (forall k :: 0 <= k < |Steps| - 1 ==> LineCompleted(k, c)))
  {
    StepTable();
  }
}
