/** The edit form of app/components/EditExpenseForm.tsx: three inputs that
    start out as the edited record's values, change with each keystroke, and
    on submit hand the edited record to `onSave` and then close through
    `onCancel`. The amount input is kept as the number it stands for:
    `toString` followed by `parseFloat` gives back every finite number. */
module EditExpenseForm {
  import opened Records

  /** The callbacks the form invokes, in the order it invokes them. */
  datatype Callback = OnSave(record: Expense) | OnCancel

  /** Lines 27-32: `{ ...expense, category, amount, date }`. */
  function Edited(expense: Expense, category: string, amount: int, date: string): (r: Expense)
    ensures r.id == expense.id && r.name == expense.name && r.scope == expense.scope
    ensures r.category == category && r.amount == amount && r.date == date
  {
    expense.(category := category, amount := amount, date := date)
  }

  /** Saving a form nobody edited writes back the record unchanged. */
  lemma EditedUntouched(expense: Expense)
    ensures Edited(expense, expense.category, expense.amount, expense.date) == expense
  {
  }

  /** Edits compose: a second edit overrides the first and keeps the identity. */
  lemma EditedTwice(expense: Expense, c1: string, a1: int, d1: string, c2: string, a2: int, d2: string)
    ensures Edited(Edited(expense, c1, a1, d1), c2, a2, d2) == Edited(expense, c2, a2, d2)
  {
  }

  class EditForm {
    const expense: Expense
    var category: string
    var amount: int
    var date: string

    /** Lines 21-23: the inputs start out as the record's values. */
    constructor (expense: Expense)
      ensures this.expense == expense
      ensures category == expense.category && amount == expense.amount && date == expense.date
    {
      this.expense := expense;
      category := expense.category;
      amount := expense.amount;
      date := expense.date;
    }

    method SetCategory(value: string)
      modifies this
      ensures category == value && amount == old(amount) && date == old(date)
    {
      category := value;
    }

    method SetAmount(value: int)
      modifies this
      ensures amount == value && category == old(category) && date == old(date)
    {
      amount := value;
    }

    method SetDate(value: string)
      modifies this
      ensures date == value && category == old(category) && amount == old(amount)
    {
      date := value;
    }

    /** Lines 25-34: `onSave` receives the record with the id and name it had
        and the current inputs; `onCancel` comes only after it. */
    method Submit() returns (calls: seq<Callback>)
      ensures |calls| == 2 && calls[1] == OnCancel
      ensures calls[0].OnSave?
      ensures calls[0].record.id == expense.id && calls[0].record.name == expense.name
      ensures calls[0].record.category == category && calls[0].record.amount == amount
      ensures calls[0].record.date == date && calls[0].record.scope == expense.scope
      ensures calls[0].record == Edited(expense, category, amount, date)
    {
      var saved := Edited(expense, category, amount, date);
      calls := [OnSave(saved)];
      calls := calls + [OnCancel];
    }
  }
}
