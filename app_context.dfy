/** The session state of app/context/AppContext.tsx: the logged-in user and
    the in-memory list of expenses, and the way each store call changes them.
    The remote store itself is not modelled: each method receives the reply
    the store gave, and whether the client could be created at start-up is a
    constant of the session. */
module AppContext {
  import opened Seqs
  import opened Records

  datatype User = User(username: string)

  datatype Credential = Credential(username: string, password: string)

  /** The fixed credential list of `login`. */
  const Users: seq<Credential> := [Credential("niloy", "seju"), Credential("sejuti", "nilui")]

  /** What a store call came back with. `Failed` covers both an `error` in
      the response and an exception caught by the `try`; either way the call
      only logs. */
  datatype Reply<T> = Failed | Succeeded(data: T)

  /** `users.find(u => u.username === username && u.password === password)`. */
  function FindUser(users: seq<Credential>, username: string, password: string): (r: Option<Credential>)
    ensures r.Some? ==> r.value.username == username && r.value.password == password
    ensures r.Some? ==> exists i :: 0 <= i < |users| && users[i] == r.value
    ensures r.None? ==> forall i :: 0 <= i < |users| ==>
      !(users[i].username == username && users[i].password == password)
  {
    if users == [] then None
    else if users[0].username == username && users[0].password == password then Some(users[0])
    else
      var r := FindUser(users[1..], username, password);
      assert forall i :: 1 <= i < |users| ==> users[i] == users[1..][i - 1];
      r
  }

  /** Login accepts exactly the two listed username/password pairs. */
  lemma LoginAcceptsExactly(username: string, password: string)
    ensures FindUser(Users, username, password).Some?
      <==> (username == "niloy" && password == "seju") || (username == "sejuti" && password == "nilui")
  {
    var r := FindUser(Users, username, password);
    if r.Some? {
      var i :| 0 <= i < |Users| && Users[i] == r.value;
      assert i == 0 || i == 1;
    } else {
      assert !(Users[0].username == username && Users[0].password == password);
      assert !(Users[1].username == username && Users[1].password == password);
    }
  }

  /** `expenses.map(e => e.id === expense.id ? expense : e)`: an update
      keeps the length and every position's id; a record whose id matches
      becomes the new record, every other record stays where it was. */
  function Replaced(es: seq<Expense>, expense: Expense): (r: seq<Expense>)
    ensures |r| == |es|
    ensures forall i :: 0 <= i < |es| ==> r[i].id == es[i].id
    ensures forall i :: 0 <= i < |es| && es[i].id == expense.id ==> r[i] == expense
    ensures forall i :: 0 <= i < |es| && es[i].id != expense.id ==> r[i] == es[i]
    ensures (forall i :: 0 <= i < |es| ==> es[i].id != expense.id) ==> r == es
  {
    seq(|es|, i requires 0 <= i < |es| => if es[i].id == expense.id then expense else es[i])
  }

  /** Saving the same record twice is the same as saving it once. */
  lemma ReplacedIdempotent(es: seq<Expense>, expense: Expense)
    ensures Replaced(Replaced(es, expense), expense) == Replaced(es, expense)
  {
  }

  /** `expenses.filter(e => e.id !== id)`: a delete keeps exactly the
      records with another id, each as often as before and in their order;
      afterwards no record has the id. */
  function Removed(es: seq<Expense>, id: string): (r: seq<Expense>)
    ensures forall e :: e in r <==> e in es && e.id != id
    ensures forall e :: multiset(r)[e] == if e.id != id then multiset(es)[e] else 0
    ensures IsSubsequence(r, es)
    ensures forall i :: 0 <= i < |r| ==> r[i].id != id
    ensures (forall i :: 0 <= i < |es| ==> es[i].id != id) ==> r == es
  {
    var keep := (e: Expense) => e.id != id;
    FilterExact(es, keep);
    assert (forall i :: 0 <= i < |es| ==> es[i].id != id) ==> Filter(es, keep) == es by {
      if forall i :: 0 <= i < |es| ==> es[i].id != id {
        FilterAllKept(es, keep);
      }
    }
    var r := Filter(es, keep);
    assert forall i :: 0 <= i < |r| ==> r[i].id != id by {
      forall i | 0 <= i < |r| ensures r[i].id != id {
        assert r[i] in r;
      }
    }
    r
  }

  lemma {:induction false} FilterAllKept(es: seq<Expense>, p: Expense -> bool)
    requires forall i :: 0 <= i < |es| ==> p(es[i])
    ensures Filter(es, p) == es
  {
    if es != [] {
      FilterAllKept(es[1..], p);
    }
  }

  /** Deleting the row an add just appended, under a fresh id, restores the list. */
  lemma RemoveUndoesAdd(es: seq<Expense>, row: Expense)
    requires forall i :: 0 <= i < |es| ==> es[i].id != row.id
    ensures Removed(es + [row], row.id) == es
  {
    var keep := (e: Expense) => e.id != row.id;
    FilterAppend(es, [row], keep);
    FilterAllKept(es, keep);
    assert Filter([row], keep) == [];
  }

  /** Editing the row an add just appended, under a fresh id, changes only the last place. */
  lemma ReplaceAfterAdd(es: seq<Expense>, row: Expense, edited: Expense)
    requires forall i :: 0 <= i < |es| ==> es[i].id != row.id
    requires edited.id == row.id
    ensures Replaced(es + [row], edited) == es + [edited]
  {
  }

  class Session {
    /** `supabase` was created: both environment variables were set. */
    const clientReady: bool
    var user: Option<User>
    var expenses: seq<Expense>

    /** The provider's initial state: nobody logged in, no expenses. */
    constructor (clientReady: bool)
      ensures this.clientReady == clientReady
      ensures user == None && expenses == []
    {
      this.clientReady := clientReady;
      user := None;
      expenses := [];
    }

    /** `fetchExpenses`: a successful select replaces the whole list, with
        `[]` for a null result; a missing client or a failure changes nothing. */
    method FetchExpenses(reply: Reply<Option<seq<Expense>>>)
      modifies this
      ensures user == old(user)
      ensures expenses == if clientReady && reply.Succeeded?
        then (if reply.data.Some? then reply.data.value else [])
        else old(expenses)
    {
      if !clientReady {
        return;
      }
      match reply
      case Failed =>
        return;
      case Succeeded(data) =>
        expenses := if data.Some? then data.value else [];
    }

    /** `login`: on a listed pair the user is set and the list is fetched;
        otherwise it answers false and nothing changes. */
    method Login(username: string, password: string, reply: Reply<Option<seq<Expense>>>)
      returns (ok: bool)
      modifies this
      ensures ok <==> FindUser(Users, username, password).Some?
      ensures ok ==> user == Some(User(username))
      ensures ok ==> expenses == if clientReady && reply.Succeeded?
        then (if reply.data.Some? then reply.data.value else [])
        else old(expenses)
      ensures !ok ==> user == old(user) && expenses == old(expenses)
    {
      var found := FindUser(Users, username, password);
      if found.Some? {
        user := Some(User(found.value.username));
        FetchExpenses(reply);
        return true;
      }
      return false;
    }

    /** `logout`: nobody is logged in and the list is cleared. */
    method Logout()
      modifies this
      ensures user == None && expenses == []
    {
      user := None;
      expenses := [];
    }

    /** `addExpense`: `draft` is what is sent to the insert, and the reply's
        row stands for the store's copy of it under the id the store assigned
        (`Records.Stored(draft, id)` when the store keeps every column). That
        row is appended at the end; a null result, a failure or a missing
        client changes nothing. */
    method AddExpense(draft: Draft, reply: Reply<Option<Expense>>)
      modifies this
      ensures user == old(user)
      ensures expenses == if clientReady && reply.Succeeded? && reply.data.Some?
        then old(expenses) + [reply.data.value]
        else old(expenses)
    {
      if !clientReady {
        return;
      }
      match reply
      case Failed =>
        return;
      case Succeeded(data) =>
        if data.Some? {
          expenses := expenses + [data.value];
        }
    }

    /** `updateExpense`: after an acknowledged update every record with the
        same id is the new record. */
    method UpdateExpense(expense: Expense, reply: Reply<()>)
      modifies this
      ensures user == old(user)
      ensures expenses == if clientReady && reply.Succeeded?
        then Replaced(old(expenses), expense)
        else old(expenses)
    {
      if !clientReady {
        return;
      }
      match reply
      case Failed =>
        return;
      case Succeeded(_) =>
        expenses := Replaced(expenses, expense);
    }

    /** `deleteExpense`: after an acknowledged delete the records with that id
        are gone. */
    method DeleteExpense(id: string, reply: Reply<()>)
      modifies this
      ensures user == old(user)
      ensures expenses == if clientReady && reply.Succeeded?
        then Removed(old(expenses), id)
        else old(expenses)
    {
      if !clientReady {
        return;
      }
      match reply
      case Failed =>
        return;
      case Succeeded(_) =>
        expenses := Removed(expenses, id);
    }
  }
}
