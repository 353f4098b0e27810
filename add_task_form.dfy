/**
  The new-task form (app/components/board/AddTaskForm.tsx): the title check
  of validateForm, the next order handleSubmit computes from the column's
  existing tasks, the payload it hands to onSubmit, and the error clearing
  of handleInputChange.
*/
module AddTaskForm {
  import opened Wrappers
  import Text
  import opened Forms
  import BoardTypes

  /** The payload of onSubmit (CreateTaskData). */
  datatype CreateTaskData = CreateTaskData(title: string, description: Option<string>, columnId: int, order: int)

  /** The `order || 0` each existing task contributes to the maximum. */
  function Contribution(order: Option<int>): int {
    BoardTypes.OrderOr(order, 0)
  }

  /**
    `reduce((max, task) => Math.max(max, task.order || 0), 0)`: the largest
    contribution, and 0 when every contribution is below it or there is no
    task.
  */
  function MaxOrder(orders: seq<Option<int>>): (m: int)
    ensures m >= 0
    ensures forall k :: 0 <= k < |orders| ==> Contribution(orders[k]) <= m
    ensures m == 0 || exists k :: 0 <= k < |orders| && Contribution(orders[k]) == m
    decreases |orders|
  {
    if orders == [] then 0
    else
      var rest := MaxOrder(orders[..|orders| - 1]);
      var last := Contribution(orders[|orders| - 1]);
      assert forall k :: 0 <= k < |orders| - 1 ==> orders[k] == orders[..|orders| - 1][k];
      if rest >= last then rest else last
  }

  /** The order of the new task: one past the maximum, so at least 1 and above every existing order. */
  function NextOrder(orders: seq<Option<int>>): (n: int)
    ensures n >= 1
    ensures forall k :: 0 <= k < |orders| && orders[k].Some? ==> orders[k].value < n
    ensures n == 1 || exists k :: 0 <= k < |orders| && orders[k] == Some(n - 1)
  {
    var m := MaxOrder(orders);
    assert forall k :: 0 <= k < |orders| && orders[k].Some? ==> orders[k].value <= m by {
      forall k | 0 <= k < |orders| && orders[k].Some? ensures orders[k].value <= m {
        assert Contribution(orders[k]) <= m;
      }
    }
    m + 1
  }

  /** The error object validateForm builds: only the title is checked. */
  function TaskErrors(title: string): (e: Errors)
    ensures Title in e <==> Text.Trim(title) == ""
    ensures Title in e ==> e[Title] == "Title is required"
    ensures e.Keys <= {Title}
  {
    Record(map[], Title, if Text.Trim(title) == "" then Some("Title is required") else None)
  }

  /** The form is valid exactly when the title is not blank; the description never blocks it. */
  lemma TaskValidIff(title: string)
    ensures TaskErrors(title) == map[] <==> !Text.AllWhite(title)
  {
    Text.TrimEmptyIffAllWhite(title);
    if TaskErrors(title) != map[] {
      var k :| k in TaskErrors(title);
    }
  }

  /** The payload of a valid form: trimmed title, trimmed description or none when blank, the column and the next order. */
  function Payload(title: string, description: string, columnId: int, orders: seq<Option<int>>): (d: CreateTaskData)
    ensures d.title == Text.Trim(title) && d.columnId == columnId && d.order == NextOrder(orders)
    ensures d.description.None? <==> Text.Trim(description) == ""
    ensures d.description.Some? ==> d.description.value == Text.Trim(description)
  {
    CreateTaskData(Text.Trim(title), if Text.Trim(description) != "" then Some(Text.Trim(description)) else None,
                   columnId, NextOrder(orders))
  }

  /** The submitted title and description carry no surrounding white space. */
  lemma PayloadIsTrimmed(title: string, description: string, columnId: int, orders: seq<Option<int>>)
    ensures var d := Payload(title, description, columnId, orders);
      Text.Trim(d.title) == d.title && (d.description.Some? ==> Text.Trim(d.description.value) == d.description.value)
  {
    Text.TrimIdempotent(title);
    Text.TrimIdempotent(description);
  }

  class Form {
    const columnId: int
    /** The `order` of each of the column's existing tasks. */
    const existingOrders: seq<Option<int>>
    var title: string
    var description: string
    var errors: Errors

    constructor(columnId: int, existingOrders: seq<Option<int>>)
      ensures this.columnId == columnId && this.existingOrders == existingOrders
      ensures title == "" && description == "" && errors == map[]
    {
      this.columnId := columnId;
      this.existingOrders := existingOrders;
      title := "";
      description := "";
      errors := map[];
    }

    /** validateForm: stores the error object and reports whether it is empty. */
    method ValidateForm() returns (valid: bool)
      modifies this
      ensures errors == TaskErrors(title)
      ensures valid <==> errors == map[]
      ensures title == old(title) && description == old(description)
    {
      var newErrors: Errors := map[];
      if Text.Trim(title) == "" {
        newErrors := newErrors[Title := "Title is required"];
      }
      errors := newErrors;
      // Object.keys(newErrors).length === 0
      valid := |newErrors.Keys| == 0;
    }

    /** handleSubmit: an invalid form calls nothing; a valid one hands Payload to onSubmit. */
    method HandleSubmit() returns (submitted: Option<CreateTaskData>)
      modifies this
      ensures title == old(title) && description == old(description) && errors == TaskErrors(title)
      ensures TaskErrors(title) != map[] ==> submitted.None?
      ensures TaskErrors(title) == map[] ==> submitted == Some(Payload(title, description, columnId, existingOrders))
    {
      var valid := ValidateForm();
      if !valid {
        return None;
      }
      var maxOrder := MaxOrder(existingOrders);
      var nextOrder := maxOrder + 1;
      var trimmedDescription := Text.Trim(description);
      submitted := Some(CreateTaskData(Text.Trim(title), if trimmedDescription != "" then Some(trimmedDescription) else None,
                                       columnId, nextOrder));
    }

    /** handleInputChange: sets the field and clears only its message. */
    method HandleInputChange(field: FieldName, value: string)
      requires field == Title || field == Description
      modifies this
      ensures title == (if field == Title then value else old(title))
      ensures description == (if field == Description then value else old(description))
      ensures errors == AfterEdit(old(errors), field)
    {
      if field == Title {
        title := value;
      } else {
        description := value;
      }
      errors := AfterEdit(errors, field);
    }
  }
}
