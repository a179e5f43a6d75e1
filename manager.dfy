/**
 * The employee manager: the list of records it owns and the running count
 * of employees, both updated in place by its operations.
 */
module Manager {
  import opened Employees
  import opened Registry

  /** What an add reports: nothing on success, a notice on a duplicate id. */
  datatype AddOutcome = Added | IdAlreadyExists

  /** What a remove by id reports. */
  datatype RemoveOutcome = RemovedId(id: int) | IdNotFound(id: int)

  /** One line of the employee listing: id, full name, salary, department. */
  datatype Row = Row(id: int, name: string, salary: real, department: Department)

  /** The listing: the empty-state notice, or one row per record. */
  datatype Listing = NoEmployees | Rows(rows: seq<Row>)

  /** The row for a record: its id, salary and department, and its two names joined by one space. */
  function RowOf(e: Employee): (r: Row)
    ensures r.id == e.id && r.salary == e.salary && r.department == e.department
    ensures |r.name| == |e.firstName| + 1 + |e.lastName|
    ensures r.name[..|e.firstName|] == e.firstName && r.name[|e.firstName|] == ' '
    ensures r.name[|e.firstName| + 1..] == e.lastName
  {
    Row(e.id, e.firstName + " " + e.lastName, e.salary, e.department)
  }

  class EmployeeManager {
    var employees: seq<Employee>
    /** Incremented by every accepted add, decremented by every successful remove. */
    var totalEmployees: int

    /** Ids are unique and the count agrees with the list. */
    ghost predicate Valid()
      reads this
    {
      UniqueIds(employees) && totalEmployees == |employees|
    }

    constructor ()
      ensures Valid()
      ensures employees == [] && totalEmployees == 0
    {
      employees := [];
      totalEmployees := 0;
    }

    method AddEmployee(employee: Employee) returns (outcome: AddOutcome)
      modifies this
      ensures outcome == if HasId(old(employees), employee.id) then IdAlreadyExists else Added
      ensures employees == AfterAdd(old(employees), employee)
      ensures totalEmployees == if outcome == Added then old(totalEmployees) + 1 else old(totalEmployees)
      ensures outcome == IdAlreadyExists ==> employees == old(employees)
      ensures outcome == Added ==> employees == old(employees) + [employee]
      ensures old(Valid()) ==> Valid()
    {
      if HasId(employees, employee.id) {
        return IdAlreadyExists;
      }
      employees := employees + [employee];
      totalEmployees := totalEmployees + 1;
      outcome := Added;
    }

    method RemoveEmployee(employeeId: int) returns (outcome: RemoveOutcome)
      modifies this
      ensures outcome == if HasId(old(employees), employeeId) then RemovedId(employeeId) else IdNotFound(employeeId)
      ensures employees == AfterRemove(old(employees), employeeId)
      ensures totalEmployees == if outcome.RemovedId? then old(totalEmployees) - 1 else old(totalEmployees)
      ensures outcome.IdNotFound? ==> employees == old(employees)
      ensures old(Valid()) ==> Valid() && !HasId(employees, employeeId)
    {
      var found := IndexOf(employees, employeeId);
      if found.Some? {
        employees := RemoveAt(employees, found.value);
        outcome := RemovedId(employeeId);
        totalEmployees := totalEmployees - 1;
      } else {
        outcome := IdNotFound(employeeId);
      }
      if old(Valid()) {
        RemoveKeepsUniqueIds(old(employees), employeeId);
      }
    }

    method ViewEmployees() returns (listing: Listing)
      ensures listing == NoEmployees <==> employees == []
      ensures listing.Rows? ==> |listing.rows| == |employees|
      ensures listing.Rows? ==> forall k :: 0 <= k < |employees| ==> listing.rows[k] == RowOf(employees[k])
    {
      if |employees| < 1 {
        return NoEmployees;
      }
      var rows: seq<Row> := [];
      var i := 0;
      while i < |employees|
        invariant 0 <= i <= |employees|
        invariant |rows| == i
        invariant forall k :: 0 <= k < i ==> rows[k] == RowOf(employees[k])
      {
        rows := rows + [RowOf(employees[i])];
        i := i + 1;
      }
      listing := Rows(rows);
    }

    method CalculateTotalSalary() returns (totalSalary: real)
      ensures totalSalary == SalarySum(employees)
      ensures employees == [] ==> totalSalary == 0.0
    {
      totalSalary := SalarySum(employees);
    }

    method TotalEmployees() returns (count: int)
      ensures count == totalEmployees
      ensures Valid() ==> count == |employees|
    {
      count := totalEmployees;
    }

    /**
     * Sets the department of the record at `index`, the record an id lookup
     * found; every other field and record stays as it was.
     */
    method AssignEmployeeToDepartment(index: nat, department: Department) returns (employee: Employee)
      requires index < |employees|
      modifies this
      ensures employees == old(employees)[index := old(employees)[index].(department := department)]
      ensures employee == employees[index]
      ensures totalEmployees == old(totalEmployees)
      ensures old(Valid()) ==> Valid()
    {
      employees := employees[index := employees[index].(department := department)];
      employee := employees[index];
    }
  }
}
