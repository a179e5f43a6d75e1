/**
 * The menu loop of the program's entry point, with console text replaced
 * by values: each turn consumes one already-read input and produces one
 * reply, and the loop ends at menu choice 7.
 */
module Console {
  import opened Employees
  import opened Registry
  import opened Manager

  /** The values a user types for the fields of a menu case (unused ones are ignored). */
  datatype Form = Form(id: int, firstName: string, lastName: string, salary: real, departmentNumber: int)

  /** One turn's input: a menu choice that is not a number, or a choice with its fields. */
  datatype Input = NotANumber | Choice(choice: int, form: Form)

  datatype Reply =
    | InvalidInput
    | AddReply(add: AddOutcome)
    | RemoveReply(remove: RemoveOutcome)
    | ListReply(listing: Listing)
    | SalaryReply(totalSalary: real)
    | CountReply(count: int)
    | AssignedReply(firstName: string, lastName: string, department: Department)
    | AssignNotFound(id: int)
    | Exiting
    | InvalidChoice

  /** One numbered line of the department menu. */
  datatype MenuEntry = MenuEntry(number: int, name: string)

  predicate IsExit(input: Input)
  {
    input.Choice? && input.choice == 7
  }

  /** The record that menu choice 1 builds from the entered fields. */
  function EmployeeOf(form: Form): (e: Employee)
    ensures e.id == form.id && e.salary == form.salary
    ensures e.firstName == form.firstName && e.lastName == form.lastName
    ensures e.department + 1 == form.departmentNumber
  {
    Employee(form.id, form.firstName, form.lastName, form.salary, DepartmentFromNumber(form.departmentNumber))
  }

  /** The list after one turn of the menu. */
  function NextEmployees(es: seq<Employee>, input: Input): (r: seq<Employee>)
    ensures |r| <= |es| + 1
  {
    if input.NotANumber? then es
    else if input.choice == 1 then AfterAdd(es, EmployeeOf(input.form))
    else if input.choice == 2 then AfterRemove(es, input.form.id)
    else if input.choice == 6 then AfterReassign(es, input.form.id, DepartmentFromNumber(input.form.departmentNumber))
    else es
  }

  /** The listing of a list of records: the empty-state notice, or one row per record. */
  function ListingOf(es: seq<Employee>): (l: Listing)
    ensures l == NoEmployees <==> es == []
    ensures l.Rows? ==> |l.rows| == |es| && forall k :: 0 <= k < |es| ==> l.rows[k] == RowOf(es[k])
  {
    if es == [] then NoEmployees else Rows(seq(|es|, k requires 0 <= k < |es| => RowOf(es[k])))
  }

  /**
   * The reply to one turn on a registry holding `es` (whose count is its
   * length): what the program reports for each menu choice.
   */
  function ReplyOf(es: seq<Employee>, input: Input): (r: Reply)
    ensures r == Exiting <==> IsExit(input)
    ensures r == InvalidInput <==> input.NotANumber?
    ensures r.AddReply? ==> (r.add == IdAlreadyExists <==> HasId(es, input.form.id))
    ensures r.RemoveReply? ==> (r.remove.RemovedId? <==> HasId(es, input.form.id))
    ensures r.AssignNotFound? ==> !HasId(es, input.form.id)
    ensures r.AssignedReply? ==> HasId(es, input.form.id) && r.department + 1 == input.form.departmentNumber
  {
    if input.NotANumber? then InvalidInput
    else
      var form := input.form;
      if input.choice == 1 then AddReply(if HasId(es, form.id) then IdAlreadyExists else Added)
      else if input.choice == 2 then RemoveReply(if HasId(es, form.id) then RemovedId(form.id) else IdNotFound(form.id))
      else if input.choice == 3 then ListReply(ListingOf(es))
      else if input.choice == 4 then SalaryReply(SalarySum(es))
      else if input.choice == 5 then CountReply(|es|)
      else if input.choice == 6 then
        (match Lookup(es, form.id)
         case Some(e) => AssignedReply(e.firstName, e.lastName, DepartmentFromNumber(form.departmentNumber))
         case None => AssignNotFound(form.id))
      else if input.choice == 7 then Exiting
      else InvalidChoice
  }

  /** No turn of the menu makes two records share an id. */
  lemma {:induction false} NextEmployeesUniqueIds(es: seq<Employee>, input: Input)
    requires UniqueIds(es)
    ensures UniqueIds(NextEmployees(es, input))
  {
    if input.Choice? && input.choice == 2 {
      RemoveKeepsUniqueIds(es, input.form.id);
    }
  }

  /** The list after a run of turns, starting from the empty registry. */
  function Replay(inputs: seq<Input>): (r: seq<Employee>)
    ensures |r| <= |inputs|
  {
    if inputs == [] then [] else NextEmployees(Replay(inputs[..|inputs| - 1]), inputs[|inputs| - 1])
  }

  /** Whatever the turns, the ids in the registry stay unique. */
  lemma {:induction false} ReplayUniqueIds(inputs: seq<Input>)
    ensures UniqueIds(Replay(inputs))
    decreases |inputs|
  {
    if inputs != [] {
      ReplayUniqueIds(inputs[..|inputs| - 1]);
      NextEmployeesUniqueIds(Replay(inputs[..|inputs| - 1]), inputs[|inputs| - 1]);
    }
  }

  /**
   * The department menu: the enumeration's members in order, numbered from
   * 1, so that typing an entry's number selects that entry's department.
   */
  method DepartmentMenu() returns (menu: seq<MenuEntry>)
    ensures |menu| == |DEPARTMENT_NAMES|
    ensures forall k :: 0 <= k < |menu| ==> menu[k].name == DEPARTMENT_NAMES[k]
    ensures forall k :: 0 <= k < |menu| ==> DepartmentFromNumber(menu[k].number) == k
  {
    menu := [];
    var departmentIndex := 1;
    var k := 0;
    while k < |DEPARTMENT_NAMES|
      invariant 0 <= k <= |DEPARTMENT_NAMES|
      invariant departmentIndex == k + 1
      invariant |menu| == k
      invariant forall j :: 0 <= j < k ==> menu[j] == MenuEntry(j + 1, DEPARTMENT_NAMES[j])
    {
      menu := menu + [MenuEntry(departmentIndex, DEPARTMENT_NAMES[k])];
      departmentIndex := departmentIndex + 1;
      k := k + 1;
    }
  }

  /** One turn of the menu loop. */
  method Step(m: EmployeeManager, input: Input) returns (reply: Reply, exit: bool)
    modifies m
    ensures exit <==> IsExit(input)
    ensures reply == Exiting <==> exit
    ensures m.employees == NextEmployees(old(m.employees), input)
    ensures old(m.Valid()) ==> m.Valid()
    ensures input.NotANumber? ==> reply == InvalidInput
    ensures input.Choice? && input.choice == 1 ==>
      reply == AddReply(if HasId(old(m.employees), input.form.id) then IdAlreadyExists else Added)
    ensures input.Choice? && input.choice == 2 ==>
      reply == RemoveReply(if HasId(old(m.employees), input.form.id) then RemovedId(input.form.id) else IdNotFound(input.form.id))
    ensures input.Choice? && input.choice == 3 ==> reply == ListReply(ListingOf(m.employees))
    ensures input.Choice? && input.choice == 4 ==> reply == SalaryReply(SalarySum(m.employees))
    ensures input.Choice? && input.choice == 5 ==> reply == CountReply(m.totalEmployees)
    ensures input.Choice? && input.choice == 6 && !HasId(old(m.employees), input.form.id) ==>
      reply == AssignNotFound(input.form.id)
    ensures input.Choice? && input.choice == 6 && HasId(old(m.employees), input.form.id) ==>
      var e := Lookup(old(m.employees), input.form.id).value;
      reply == AssignedReply(e.firstName, e.lastName, DepartmentFromNumber(input.form.departmentNumber))
    ensures input.Choice? && !(input.choice in {1, 2, 3, 4, 5, 6, 7}) ==> reply == InvalidChoice
    ensures m.totalEmployees - |m.employees| == old(m.totalEmployees) - |old(m.employees)|
    ensures input.Choice? && input.choice == 1 ==>
      m.totalEmployees == if HasId(old(m.employees), input.form.id) then old(m.totalEmployees) else old(m.totalEmployees) + 1
    ensures input.Choice? && input.choice == 2 ==>
      m.totalEmployees == if HasId(old(m.employees), input.form.id) then old(m.totalEmployees) - 1 else old(m.totalEmployees)
    ensures !(input.Choice? && input.choice in {1, 2}) ==> m.totalEmployees == old(m.totalEmployees)
    ensures old(m.Valid()) ==> reply == ReplyOf(old(m.employees), input)
  {
    exit := false;
    if input.NotANumber? {
      return InvalidInput, false;
    }
    var form := input.form;
    if input.choice == 1 {
      var outcome := m.AddEmployee(EmployeeOf(form));
      reply := AddReply(outcome);
    } else if input.choice == 2 {
      var outcome := m.RemoveEmployee(form.id);
      reply := RemoveReply(outcome);
    } else if input.choice == 3 {
      var listing := m.ViewEmployees();
      assert listing == ListingOf(m.employees);
      reply := ListReply(listing);
    } else if input.choice == 4 {
      var total := m.CalculateTotalSalary();
      reply := SalaryReply(total);
    } else if input.choice == 5 {
      var count := m.TotalEmployees();
      reply := CountReply(count);
    } else if input.choice == 6 {
      var found := IndexOf(m.employees, form.id);
      if found.Some? {
        var employee := m.AssignEmployeeToDepartment(found.value, DepartmentFromNumber(form.departmentNumber));
        reply := AssignedReply(employee.firstName, employee.lastName, employee.department);
      } else {
        reply := AssignNotFound(form.id);
      }
    } else if input.choice == 7 {
      reply, exit := Exiting, true;
    } else {
      reply := InvalidChoice;
    }
  }

  /** Appending turn `i`'s reply keeps every reply the one its turn calls for. */
  lemma {:induction false} ReplyAppended(replies: seq<Reply>, reply: Reply, inputs: seq<Input>, i: nat)
    requires |replies| == i < |inputs|
    requires forall k :: 0 <= k < i ==> replies[k] == ReplyOf(Replay(inputs[..k]), inputs[k])
    requires reply == ReplyOf(Replay(inputs[..i]), inputs[i])
    ensures forall k :: 0 <= k < i + 1 ==> (replies + [reply])[k] == ReplyOf(Replay(inputs[..k]), inputs[k])
  {
  }

  /**
   * The menu loop from a fresh manager: one reply per input, until choice 7
   * or the end of the inputs. Returns the final list and the final count.
   */
  method Run(inputs: seq<Input>) returns (replies: seq<Reply>, final: seq<Employee>, count: int)
    ensures |replies| <= |inputs|
    ensures forall k :: 0 <= k < |replies| ==> (replies[k] == Exiting <==> IsExit(inputs[k]))
    ensures forall k :: 0 <= k < |replies| - 1 ==> !IsExit(inputs[k])
    ensures |replies| < |inputs| ==> replies != [] && IsExit(inputs[|replies| - 1])
    ensures final == Replay(inputs[..|replies|])
    ensures count == |final|
    ensures UniqueIds(final)
    ensures forall k :: 0 <= k < |replies| ==> replies[k] == ReplyOf(Replay(inputs[..k]), inputs[k])
  {
    var m := new EmployeeManager();
    replies := [];
    var exit := false;
    var i := 0;
    while !exit && i < |inputs|
      invariant 0 <= i <= |inputs|
      invariant |replies| == i
      invariant forall k :: 0 <= k < i ==> (replies[k] == Exiting <==> IsExit(inputs[k]))
      invariant forall k :: 0 <= k < i - 1 ==> !IsExit(inputs[k])
      invariant exit <==> i > 0 && IsExit(inputs[i - 1])
      invariant m.employees == Replay(inputs[..i])
      invariant m.Valid()
      invariant forall k :: 0 <= k < i ==> replies[k] == ReplyOf(Replay(inputs[..k]), inputs[k])
    {
      var reply;
      assert inputs[..i + 1][..i] == inputs[..i];
      reply, exit := Step(m, inputs[i]);
      assert reply == ReplyOf(Replay(inputs[..i]), inputs[i]);
      ReplyAppended(replies, reply, inputs, i);
      replies := replies + [reply];
      i := i + 1;
    }
    final := m.employees;
    count := m.TotalEmployees();
  }

  /** The menu loop itself reports the second add of the same id as a duplicate. */
  method DuplicateIdRunSession()
  {
    var leo := Form(2, "Leo", "Tan", 50000.0, 3);
    var inputs := [Choice(1, leo), Choice(1, leo)];
    var replies, final, count := Run(inputs);
    assert inputs[..0] == [] && inputs[..1] == [Choice(1, leo)];
    assert Replay([Choice(1, leo)]) == [EmployeeOf(leo)];
    assert replies == [AddReply(Added), AddReply(IdAlreadyExists)];
    assert count == 1;
  }

  /** A second add with the same id is rejected; the count stays at one. */
  method DuplicateIdSession()
  {
    var ana := Employee(1, "Ana", "Cruz", 30000.0, IT);
    var ben := Employee(1, "Ben", "Reyes", 25000.0, HR);
    var m := new EmployeeManager();
    var added := m.AddEmployee(ana);
    added := m.AddEmployee(ben);
    assert m.employees == [ana];
    assert added == IdAlreadyExists;
    var count := m.TotalEmployees();
    assert count == 1;
    var listing := m.ViewEmployees();
    assert listing.Rows? && listing.rows == [RowOf(ana)];
  }

  /** Menu choice 6 moves an employee from Finance (3) to Sales (6). */
  method ReassignSession()
  {
    var m := new EmployeeManager();
    var leo := Form(2, "Leo", "Tan", 50000.0, 3);
    var reply, exit := Step(m, Choice(1, leo));
    assert m.employees == [EmployeeOf(leo)];
    reply, exit := Step(m, Choice(6, leo.(departmentNumber := 6)));
    assert m.employees[0].department == SALES;
    assert reply == AssignedReply("Leo", "Tan", SALES);
  }

  /** The total salary is 0 on an empty registry and adds up the records otherwise. */
  method TotalSalarySession()
  {
    var m := new EmployeeManager();
    var total := m.CalculateTotalSalary();
    assert total == 0.0;
    var e3 := Employee(3, "Ana", "Cruz", 40000.0, IT);
    var e4 := Employee(4, "Ben", "Reyes", 60000.0, HR);
    var added := m.AddEmployee(e3);
    added := m.AddEmployee(e4);
    assert m.employees == [e3, e4];
    AddTotalSalary([e3], e4);
    total := m.CalculateTotalSalary();
    assert total == 100000.0;
  }

  /** Removing an unknown id from an empty registry reports it and changes nothing. */
  method RemoveUnknownSession()
  {
    var m := new EmployeeManager();
    var removed := m.RemoveEmployee(999);
    assert removed == IdNotFound(999);
    var count := m.TotalEmployees();
    assert count == 0;
  }
}
