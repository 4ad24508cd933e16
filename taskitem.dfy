/** The task card of the client (`TaskItem`): the priority badge and border
    mappings, the priority label, the overdue flag, the completion checkbox
    and the action buttons. The planner page uses the same priority
    mappings. */
module TaskItem {
  import opened Wrappers
  import opened Text
  import opened Storage
  import opened Structurer

  datatype BadgeVariant = Destructive | DefaultVariant | Secondary
  datatype Border = RedBorder | YellowBorder | GreenBorder | GrayBorder

  /** `getPriorityBadgeVariant`. */
  function BadgeVariantOf(priority: string): (r: BadgeVariant)
    ensures r == Destructive <==> priority == "high"
    ensures r == Secondary <==> priority == "low"
  {
    if priority == "high" then Destructive
    else if priority == "medium" then DefaultVariant
    else if priority == "low" then Secondary
    else DefaultVariant
  }

  /** `getPriorityColor`: the card's border. */
  function BorderOf(priority: string): (r: Border)
    ensures r == GrayBorder <==> priority !in {"high", "medium", "low"}
  {
    if priority == "high" then RedBorder
    else if priority == "medium" then YellowBorder
    else if priority == "low" then GreenBorder
    else GrayBorder
  }

  /** The badge and the border tell the same story: red with destructive,
      green with secondary, and the default badge for medium and for any
      unknown priority, which the border shows yellow and gray. */
  lemma BadgeMatchesBorder(priority: string)
    ensures BadgeVariantOf(priority) == Destructive <==> BorderOf(priority) == RedBorder
    ensures BadgeVariantOf(priority) == Secondary <==> BorderOf(priority) == GreenBorder
    ensures BadgeVariantOf(priority) == DefaultVariant <==> BorderOf(priority) in {YellowBorder, GrayBorder}
  {
  }

  /** Every priority the normaliser can produce has its own colour. */
  lemma NormalisedPriorityColoured(p: Priority)
    ensures BorderOf(PriorityName(p)) != GrayBorder
  {
  }

  /** The badge text: the priority with its first letter upper-cased,
      followed by " Priority". */
  function PriorityLabel(priority: string): (r: string)
    ensures |r| == |priority| + 9
    ensures r[|priority|..] == " Priority"
    ensures |priority| > 0 ==> r[0] == UpperChar(priority[0]) && r[1..|priority|] == priority[1..]
  {
    Capitalize(priority) + " Priority"
  }

  lemma HighLabel()
    ensures PriorityLabel("high") == "High Priority"
  {
    assert UpperChar('h') == 'H';
    assert Capitalize("high") == "High";
  }

  /** `isOverdue`: a due date, still pending, and strictly before now. */
  predicate IsOverdue(t: Task, now: int): (r: bool)
    ensures r ==> OverdueOf(t.userId, now)(t)
    ensures r ==> t.dueDate.Some? && t.dueDate.value != now
  {
    t.dueDate.Some? && t.status == Pending && t.dueDate.value < now
  }

  /** A completed task is never shown as overdue. */
  lemma CompletedNeverOverdue(t: Task, now: int)
    requires t.status == Completed
    ensures !IsOverdue(t, now)
  {
  }

  /** Every task the card flags is in the server's overdue count, but the
      server also counts a pending task due at exactly now, which the card
      does not flag. */
  lemma CardOverdueWithinServerCount(t: Task, now: int)
    ensures IsOverdue(t, now) ==> OverdueOf(t.userId, now)(t)
    ensures t.status == Pending && t.dueDate == Some(now) ==> OverdueOf(t.userId, now)(t) && !IsOverdue(t, now)
  {
  }

  /** What the checkbox does: a change completes the task only when it is
      pending and a handler was given; the box is disabled once completed. */
  datatype Checkbox = Checkbox(checked: bool, completes: bool, disabled: bool)

  function CheckboxOf(status: string, hasOnComplete: bool): (r: Checkbox)
    ensures r.completes <==> status == Pending && hasOnComplete
    ensures r.disabled <==> status == Completed
    ensures r.checked <==> status == Completed
  {
    Checkbox(status == Completed, status == Pending && hasOnComplete, status == Completed)
  }

  /** A box that can complete its task is never disabled, and a completed
      task cannot be completed again from its card. */
  lemma CheckboxConsistent(status: string, hasOnComplete: bool)
    ensures CheckboxOf(status, hasOnComplete).completes ==> !CheckboxOf(status, hasOnComplete).disabled
    ensures status == Completed ==> !CheckboxOf(status, hasOnComplete).completes
  {
  }

  /** The edit and delete buttons shown; `showActions` defaults to true
      when it is not passed. */
  datatype Actions = Actions(edit: bool, delete: bool)

  function ActionsOf(showActions: Option<bool>, hasOnEdit: bool, hasOnDelete: bool): (r: Actions)
    ensures r.edit <==> showActions.GetOr(true) && hasOnEdit
    ensures r.delete <==> showActions.GetOr(true) && hasOnDelete
  {
    var show := showActions.GetOr(true);
    Actions(show && hasOnEdit, show && hasOnDelete)
  }

  /** Turning actions off hides both buttons, and leaving the flag out
      shows every button that has a handler. */
  lemma ActionsDefault(hasOnEdit: bool, hasOnDelete: bool)
    ensures ActionsOf(Some(false), hasOnEdit, hasOnDelete) == Actions(false, false)
    ensures ActionsOf(None, hasOnEdit, hasOnDelete) == Actions(hasOnEdit, hasOnDelete)
  {
  }
}
