/** Field validation of the financial entities `Expense` and `ExpenseItem`.

    Every setter checks the one field it sets and either commits the value or
    raises a validation error carrying a message and the name of the offending
    property.  A raised error is a `Failure`; the entity the caller held is left
    as it was.  "Now" and the earliest acceptable date are inputs (`Clock`), and
    `decimal` amounts are `real`. */
module Expenses {
  import opened Wrappers

  /** The message templates of `ValidationMessages`; their wording is not modelled. */
  datatype Template =
    | PropertyCantBeLessThanZero
    | PropertyCantBeNullOrEmpty
    | PropertyCantBeNull
    | InvalidDate

  /** A message is a template formatted with one argument, or a template used as is. */
  datatype Message = Formatted(template: Template, argument: string) | Plain(template: Template)

  /** The `ValidationException`: its message and its `Property`. */
  datatype ValidationError = ValidationError(message: Message, property: string)

  const GoalProperty: string := "Goal"
  const NameProperty: string := "Name"
  const DateProperty: string := "Date"
  const AmountProperty: string := "Amount"
  const CreatedByProperty: string := "CreatedBy"
  const AttachmentsProperty: string := "Attachments"
  const ItemsProperty: string := "Items"

  /** .NET ticks in one day, the step of `DateTime.AddDays(1)`. */
  const TicksPerDay: int := 864_000_000_000

  /** The error raised when `property` breaks `template`: the date rule uses its
      message unformatted, every other rule formats its template with the property. */
  function Violation(template: Template, property: string): (err: ValidationError)
    ensures err.property == property
    ensures err.message.template == template
    ensures err.message.Plain? <==> template == InvalidDate
    ensures err.message.Formatted? ==> err.message.argument == err.property
  {
    if template == InvalidDate then ValidationError(Plain(InvalidDate), property)
    else ValidationError(Formatted(template, property), property)
  }

  /** The instant the entity reads as "now" and `now.AddYears(-200)`, in ticks. */
  datatype Clock = Clock(now: int, earliest: int)

  /** The user an expense is created by; only its identity matters here. */
  datatype User = User(id: string)

  datatype Expense = Expense(name: string, goal: real, amount: real, date: int, createdBy: Option<User>)

  datatype Attachment = Attachment(name: string)

  datatype ExpenseItem = ExpenseItem(attachments: seq<Attachment>, items: seq<ExpenseItem>)

  /** A goal or an amount may be zero but not negative. */
  predicate NonNegative(x: real) { x >= 0.0 }

  /** A date is accepted when it is not after now and later than 200 years before now. */
  predicate DateInRange(clock: Clock, d: int) { clock.earliest < d <= clock.now }

  /** Every field of the expense holds a value its setter would accept. */
  predicate Valid(e: Expense, clock: Clock) {
    && e.name != ""
    && NonNegative(e.goal)
    && NonNegative(e.amount)
    && DateInRange(clock, e.date)
    && e.createdBy.Some?
  }

  function SetName(e: Expense, name: Option<string>): (r: Result<Expense, ValidationError>)
    ensures r.Failure? <==> name == None || name == Some("")
    ensures r.Failure? ==> r.error == Violation(PropertyCantBeNullOrEmpty, NameProperty)
    ensures r.Success? ==> r.value.name == name.value && r.value.(name := e.name) == e
  {
    if name.None? || |name.value| == 0 then Failure(Violation(PropertyCantBeNullOrEmpty, NameProperty))
    else Success(e.(name := name.value))
  }

  function SetGoal(e: Expense, goal: real): (r: Result<Expense, ValidationError>)
    ensures r.Failure? <==> goal < 0.0
    ensures r.Failure? ==> r.error == Violation(PropertyCantBeLessThanZero, GoalProperty)
    ensures r.Success? ==> r.value.goal == goal && r.value.(goal := e.goal) == e
  {
    if !NonNegative(goal) then Failure(Violation(PropertyCantBeLessThanZero, GoalProperty))
    else Success(e.(goal := goal))
  }

  function SetAmount(e: Expense, amount: real): (r: Result<Expense, ValidationError>)
    ensures r.Failure? <==> amount < 0.0
    ensures r.Failure? ==> r.error == Violation(PropertyCantBeLessThanZero, AmountProperty)
    ensures r.Success? ==> r.value.amount == amount && r.value.(amount := e.amount) == e
  {
    if !NonNegative(amount) then Failure(Violation(PropertyCantBeLessThanZero, AmountProperty))
    else Success(e.(amount := amount))
  }

  function SetDate(e: Expense, clock: Clock, date: int): (r: Result<Expense, ValidationError>)
    ensures r.Failure? <==> date > clock.now || date <= clock.earliest
    ensures r.Failure? ==> r.error == Violation(InvalidDate, DateProperty)
    ensures r.Success? ==> r.value.date == date && r.value.(date := e.date) == e
  {
    if !DateInRange(clock, date) then Failure(Violation(InvalidDate, DateProperty))
    else Success(e.(date := date))
  }

  function SetCreatedBy(e: Expense, user: Option<User>): (r: Result<Expense, ValidationError>)
    ensures r.Failure? <==> user == None
    ensures r.Failure? ==> r.error == Violation(PropertyCantBeNull, CreatedByProperty)
    ensures r.Success? ==> r.value.createdBy == user && r.value.(createdBy := e.createdBy) == e
  {
    if user.None? then Failure(Violation(PropertyCantBeNull, CreatedByProperty))
    else Success(e.(createdBy := user))
  }

  function SetAttachments(item: ExpenseItem, attachments: Option<seq<Attachment>>): (r: Result<ExpenseItem, ValidationError>)
    ensures r.Failure? <==> attachments == None
    ensures r.Failure? ==> r.error == Violation(PropertyCantBeNull, AttachmentsProperty)
    ensures r.Success? ==> r.value.attachments == attachments.value && r.value.items == item.items
  {
    if attachments.None? then Failure(Violation(PropertyCantBeNull, AttachmentsProperty))
    else Success(item.(attachments := attachments.value))
  }

  function SetItems(item: ExpenseItem, items: Option<seq<ExpenseItem>>): (r: Result<ExpenseItem, ValidationError>)
    ensures r.Failure? <==> items == None
    ensures r.Failure? ==> r.error == Violation(PropertyCantBeNull, ItemsProperty)
    ensures r.Success? ==> r.value.items == items.value && r.value.attachments == item.attachments
  {
    if items.None? then Failure(Violation(PropertyCantBeNull, ItemsProperty))
    else Success(item.(items := items.value))
  }

  /** The test data `InvalidDates`: one day after now, and exactly 200 years
      before now, are both rejected with the unformatted date message. */
  lemma InvalidDatesRejected(e: Expense, clock: Clock)
    ensures SetDate(e, clock, clock.now + TicksPerDay) == Failure(ValidationError(Plain(InvalidDate), DateProperty))
    ensures SetDate(e, clock, clock.earliest) == Failure(ValidationError(Plain(InvalidDate), DateProperty))
  {
  }

  /** One call of the expense builder: `AddName`, `AddGoal`, ... with its argument. */
  datatype ExpenseStep =
    | AddName(name: Option<string>)
    | AddGoal(goal: real)
    | AddDate(date: int)
    | AddAmount(amount: real)
    | AddCreatedBy(user: Option<User>)

  /** The rule table: the error a step raises, decided from its argument alone,
      since no rule looks at another field. */
  function StepViolation(clock: Clock, step: ExpenseStep): Option<ValidationError> {
    match step
    case AddName(n) =>
      if n.Some? && n.value != "" then None else Some(Violation(PropertyCantBeNullOrEmpty, NameProperty))
    case AddGoal(g) =>
      if g >= 0.0 then None else Some(Violation(PropertyCantBeLessThanZero, GoalProperty))
    case AddDate(d) =>
      if clock.earliest < d <= clock.now then None else Some(Violation(InvalidDate, DateProperty))
    case AddAmount(a) =>
      if a >= 0.0 then None else Some(Violation(PropertyCantBeLessThanZero, AmountProperty))
    case AddCreatedBy(u) =>
      if u.Some? then None else Some(Violation(PropertyCantBeNull, CreatedByProperty))
  }

  /** One builder step: it delegates to the setter of its field. */
  function Apply(e: Expense, clock: Clock, step: ExpenseStep): (r: Result<Expense, ValidationError>)
    ensures r.Failure? <==> StepViolation(clock, step).Some?
    ensures r.Failure? ==> r.error == StepViolation(clock, step).value
    ensures step.AddName? && r.Success? ==> r.value == e.(name := step.name.value)
    ensures step.AddGoal? && r.Success? ==> r.value == e.(goal := step.goal)
    ensures step.AddDate? && r.Success? ==> r.value == e.(date := step.date)
    ensures step.AddAmount? && r.Success? ==> r.value == e.(amount := step.amount)
    ensures step.AddCreatedBy? && r.Success? ==> r.value == e.(createdBy := step.user)
  {
    match step
    case AddName(n) => SetName(e, n)
    case AddGoal(g) => SetGoal(e, g)
    case AddDate(d) => SetDate(e, clock, d)
    case AddAmount(a) => SetAmount(e, a)
    case AddCreatedBy(u) => SetCreatedBy(e, u)
  }

  /** A builder chain followed by `Build()`: the steps run in order and the
      first error raised ends the chain. */
  function Build(e: Expense, clock: Clock, steps: seq<ExpenseStep>): (r: Result<Expense, ValidationError>)
    ensures r.Failure? ==> exists j :: 0 <= j < |steps| && StepViolation(clock, steps[j]) == Some(r.error)
    decreases |steps|
  {
    if |steps| == 0 then Success(e)
    else
      match Apply(e, clock, steps[0])
      case Failure(err) => Failure(err)
      case Success(next) =>
        var r := Build(next, clock, steps[1..]);
        assert r.Failure? ==> exists j :: 1 <= j < |steps| && StepViolation(clock, steps[j]) == Some(r.error) by {
          if r.Failure? {
            var j :| 0 <= j < |steps[1..]| && StepViolation(clock, steps[1..][j]) == Some(r.error);
            assert steps[1..][j] == steps[j + 1];
          }
        }
        r
  }

  /** A chain whose step `i` is the first invalid one raises exactly that
      step's error, so `Build()` never hands out an entity. */
  lemma {:induction false} BuildStopsAtFirstViolation(e: Expense, clock: Clock, steps: seq<ExpenseStep>, i: nat)
    requires i < |steps|
    requires StepViolation(clock, steps[i]).Some?
    requires forall j :: 0 <= j < i ==> StepViolation(clock, steps[j]).None?
    ensures Build(e, clock, steps) == Failure(StepViolation(clock, steps[i]).value)
    decreases i
  {
    if i > 0 {
      assert StepViolation(clock, steps[0]).None?;
      var next := Apply(e, clock, steps[0]).value;
      forall j | 0 <= j < i - 1
        ensures StepViolation(clock, steps[1..][j]).None?
      {
        assert steps[1..][j] == steps[j + 1];
      }
      BuildStopsAtFirstViolation(next, clock, steps[1..], i - 1);
    }
  }

  /** A chain builds an entity exactly when none of its steps breaks a rule. */
  lemma {:induction false} BuildSucceedsIffNoViolation(e: Expense, clock: Clock, steps: seq<ExpenseStep>)
    ensures Build(e, clock, steps).Success? <==> forall j :: 0 <= j < |steps| ==> StepViolation(clock, steps[j]).None?
    decreases |steps|
  {
    if |steps| > 0 && StepViolation(clock, steps[0]).None? {
      var next := Apply(e, clock, steps[0]).value;
      BuildSucceedsIffNoViolation(next, clock, steps[1..]);
      assert forall j :: 1 <= j < |steps| ==> steps[j] == steps[1..][j - 1];
    }
  }

  /** A successful step keeps an entity valid: the field it sets passed its
      rule and every other field is untouched. */
  lemma StepPreservesValid(e: Expense, clock: Clock, step: ExpenseStep)
    requires Valid(e, clock)
    requires Apply(e, clock, step).Success?
    ensures Valid(Apply(e, clock, step).value, clock)
  {
  }

  /** Calling a setter again with the value it just accepted changes nothing. */
  lemma StepIdempotent(e: Expense, clock: Clock, step: ExpenseStep)
    requires Apply(e, clock, step).Success?
    ensures Apply(Apply(e, clock, step).value, clock, step) == Apply(e, clock, step)
  {
  }

  /** Building a valid expense and reading its attributes back returns exactly
      the values supplied, whatever the draft held before. */
  lemma {:induction false} BuildRoundTrip(e: Expense, clock: Clock, user: User)
    requires clock.earliest < clock.now
    ensures var r := Build(e, clock, [AddName(Some("Rent")), AddGoal(500.0), AddAmount(450.0), AddDate(clock.now), AddCreatedBy(Some(user))]);
            r == Success(Expense("Rent", 500.0, 450.0, clock.now, Some(user))) && Valid(r.value, clock)
  {
    var steps := [AddName(Some("Rent")), AddGoal(500.0), AddAmount(450.0), AddDate(clock.now), AddCreatedBy(Some(user))];
    var e1 := e.(name := "Rent");
    var e2 := e1.(goal := 500.0);
    var e3 := e2.(amount := 450.0);
    var e4 := e3.(date := clock.now);
    var e5 := e4.(createdBy := Some(user));
    assert steps[1..] == [AddGoal(500.0), AddAmount(450.0), AddDate(clock.now), AddCreatedBy(Some(user))];
    assert steps[1..][1..] == [AddAmount(450.0), AddDate(clock.now), AddCreatedBy(Some(user))];
    assert steps[1..][1..][1..] == [AddDate(clock.now), AddCreatedBy(Some(user))];
    assert steps[1..][1..][1..][1..] == [AddCreatedBy(Some(user))];
    assert Build(e5, clock, []) == Success(e5);
    assert Build(e4, clock, [AddCreatedBy(Some(user))]) == Success(e5);
    assert Build(e3, clock, [AddDate(clock.now), AddCreatedBy(Some(user))]) == Success(e5);
    assert Build(e2, clock, steps[1..][1..]) == Success(e5);
    assert Build(e1, clock, steps[1..]) == Success(e5);
  }

  /** One call of the expense item builder, with its argument. */
  datatype ItemStep =
    | AddAttachments(attachments: Option<seq<Attachment>>)
    | AddItems(items: Option<seq<ExpenseItem>>)

  /** The error an item step raises: only a null collection is refused. */
  function ItemStepViolation(step: ItemStep): Option<ValidationError> {
    match step
    case AddAttachments(a) => if a.Some? then None else Some(Violation(PropertyCantBeNull, AttachmentsProperty))
    case AddItems(xs) => if xs.Some? then None else Some(Violation(PropertyCantBeNull, ItemsProperty))
  }

  /** One item builder step: it delegates to the setter of its collection. */
  function ApplyItem(item: ExpenseItem, step: ItemStep): (r: Result<ExpenseItem, ValidationError>)
    ensures r.Failure? <==> ItemStepViolation(step).Some?
    ensures r.Failure? ==> r.error == ItemStepViolation(step).value
    ensures step.AddAttachments? && r.Success? ==> r.value == item.(attachments := step.attachments.value)
    ensures step.AddItems? && r.Success? ==> r.value == item.(items := step.items.value)
  {
    match step
    case AddAttachments(a) => SetAttachments(item, a)
    case AddItems(xs) => SetItems(item, xs)
  }

  /** An item builder chain followed by `Build()`: the first error raised ends it. */
  function BuildItem(item: ExpenseItem, steps: seq<ItemStep>): (r: Result<ExpenseItem, ValidationError>)
    ensures r.Failure? ==> exists j :: 0 <= j < |steps| && ItemStepViolation(steps[j]) == Some(r.error)
    decreases |steps|
  {
    if |steps| == 0 then Success(item)
    else
      match ApplyItem(item, steps[0])
      case Failure(err) => Failure(err)
      case Success(next) =>
        var r := BuildItem(next, steps[1..]);
        assert r.Failure? ==> exists j :: 1 <= j < |steps| && ItemStepViolation(steps[j]) == Some(r.error) by {
          if r.Failure? {
            var j :| 0 <= j < |steps[1..]| && ItemStepViolation(steps[1..][j]) == Some(r.error);
            assert steps[1..][j] == steps[j + 1];
          }
        }
        r
  }

  /** An item chain whose step `i` is the first null collection raises exactly that step's error. */
  lemma {:induction false} BuildItemStopsAtFirstViolation(item: ExpenseItem, steps: seq<ItemStep>, i: nat)
    requires i < |steps|
    requires ItemStepViolation(steps[i]).Some?
    requires forall j :: 0 <= j < i ==> ItemStepViolation(steps[j]).None?
    ensures BuildItem(item, steps) == Failure(ItemStepViolation(steps[i]).value)
    decreases i
  {
    if i > 0 {
      assert ItemStepViolation(steps[0]).None?;
      var next := ApplyItem(item, steps[0]).value;
      forall j | 0 <= j < i - 1
        ensures ItemStepViolation(steps[1..][j]).None?
      {
        assert steps[1..][j] == steps[j + 1];
      }
      BuildItemStopsAtFirstViolation(next, steps[1..], i - 1);
    }
  }

  /** An item chain builds an item exactly when none of its collections is null. */
  lemma {:induction false} BuildItemSucceedsIffNoViolation(item: ExpenseItem, steps: seq<ItemStep>)
    ensures BuildItem(item, steps).Success? <==> forall j :: 0 <= j < |steps| ==> ItemStepViolation(steps[j]).None?
    decreases |steps|
  {
    if |steps| > 0 && ItemStepViolation(steps[0]).None? {
      var next := ApplyItem(item, steps[0]).value;
      BuildItemSucceedsIffNoViolation(next, steps[1..]);
      assert forall j :: 1 <= j < |steps| ==> steps[j] == steps[1..][j - 1];
    }
  }

  /** Setting a collection again to the value just accepted changes nothing. */
  lemma ItemStepIdempotent(item: ExpenseItem, step: ItemStep)
    requires ApplyItem(item, step).Success?
    ensures ApplyItem(ApplyItem(item, step).value, step) == ApplyItem(item, step)
  {
  }

  /** Building an item from two collections and reading them back returns
      exactly the collections supplied, empty ones included. */
  lemma ItemBuildRoundTrip(item: ExpenseItem, attachments: seq<Attachment>, items: seq<ExpenseItem>)
    ensures BuildItem(item, [AddAttachments(Some(attachments)), AddItems(Some(items))]) == Success(ExpenseItem(attachments, items))
  {
    var steps := [AddAttachments(Some(attachments)), AddItems(Some(items))];
    var withAttachments := item.(attachments := attachments);
    assert steps[1..] == [AddItems(Some(items))];
    assert BuildItem(withAttachments, steps[1..]) == Success(ExpenseItem(attachments, items)) by {
      assert steps[1..][1..] == [];
    }
  }
}
