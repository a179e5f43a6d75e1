# Employee registry — a Dafny model

This project models the employee registry of the console Employee Management
System (`Employee_Management_System/Program.cs`). An `EmployeeManager` keeps an
ordered in-memory list of `Employee` records and a running count of employees.
Each record has an id, a first name, a last name, a salary and a department.
The manager's operations are:

- add, with a unique-id check;
- remove the first record matching an id;
- list the records in insertion order;
- total the salaries;
- read the count;
- reassign a record's department.

The program's `Main` drives these from a numbered menu loop. The model has four modules:

- `Employees` (`employees.dfy`): the `Department` enumeration as its underlying integer, the
  enumeration's names, the `Employee` record, and the mapping from a 1-based menu number to a
  department.
- `Registry` (`registry.dfy`): the list as a value. It has the linear id lookups (`IndexOf`,
  `HasId`, `Lookup`), the salary total `SalarySum`, and `AfterAdd`, `AfterRemove` and
  `AfterReassign`, which say what each operation does to the list. Lemmas about them cover
  id uniqueness and the salary total.
- `Manager` (`manager.dfy`): the class `EmployeeManager`. Its fields `employees` and
  `totalEmployees` are updated in place. `Valid()` says that ids are unique and that the count
  equals the list's length. `AddEmployee` and `RemoveEmployee` state their new list through
  `AfterAdd` and `AfterRemove`; `AssignEmployeeToDepartment` states it as an update of one
  record's department. Each mutating method states its new count, and keeps `Valid()` whenever
  `Valid()` held before it ran (no method requires it).
- `Console` (`console.dfy`): the `switch` of the menu loop. It is modelled as `Step` (one turn,
  from an already-read input to a reply value) and `Run` (the `while (!exit)` loop from a fresh
  manager). `Replay` is the list a sequence of turns produces. `DepartmentMenu` is the numbered
  department listing. Five small client methods replay example sessions against the contracts.

Record removal: `List.Remove` deletes the first element that is the *same object* as the one the
lookup found. That object is the first record with the id, because every earlier record has
another id. So removal deletes index `IndexOf(list, id)`, which is what `AfterRemove` states.

This model follows `Program.cs` as written. A menu choice that is not a number (lines 155-158,
`NotANumber`) or is out of range (lines 247-249, `InvalidChoice`) is reported and the menu is
shown again. Bad field values are not re-prompted, because `int.Parse` and `double.Parse` throw
on them. The program does not check for a duplicate id
before calling `AddEmployee`, does not short-circuit a remove or reassign on an empty registry,
and accepts any integer as a department number. Later revisions of the program add validation
loops for these; they are not part of this model.

## Model

| member | source | states |
|---|---|---|
| `Employees.DepartmentFromNumber` | Employee_Management_System/Program.cs:189-191 | menu number `n` selects enum value `n - 1`; the value is a named department exactly when `1 <= n <= 6` (the cast itself is unchecked) |
| `Registry.IndexOf` | Employee_Management_System/Program.cs:84 | the lookup finds a record with the id, no earlier record has it, and it finds nothing exactly when no record has the id |
| `Registry.HasId` | Employee_Management_System/Program.cs:71 | `Any` by id is true exactly when some record in the list carries the id |
| `Registry.Lookup` | Employee_Management_System/Program.cs:222 | `FirstOrDefault` by id: nothing exactly when no record has the id; otherwise a record of the list with that id, namely the first one |
| `Registry.IndexOfUnique` | Employee_Management_System/Program.cs:84 | when ids are unique, looking up a record's own id finds that very record |
| `Registry.SalarySum` | Employee_Management_System/Program.cs:116 | the total of `Sum` over salaries: 0 for an empty list, non-negative when every salary is, positive for a non-empty list of positive salaries |
| `Registry.SalarySumConcat` | Employee_Management_System/Program.cs:116 | the salary total of two lists placed end to end is the sum of their totals |
| `Registry.SalarySumSingleton` | Employee_Management_System/Program.cs:116 | the total of a one-record list is that record's salary |
| `Registry.SalarySumSameSalaries` | Employee_Management_System/Program.cs:116 | two lists with the same salaries position by position have the same total, whatever their other fields |
| `Registry.SalarySumSplit` | Employee_Management_System/Program.cs:116 | a record placed between two lists adds exactly its salary to their two totals |
| `Registry.SalarySumRemoveAt` | Employee_Management_System/Program.cs:87 | deleting one record lowers the total by exactly that record's salary |
| `Registry.AfterAdd` | Employee_Management_System/Program.cs:68-79 | a duplicate id leaves the list unchanged; a fresh id is appended at the end with all earlier records kept in order; afterwards the id is present; unique ids stay unique |
| `Registry.RemoveAt` | Employee_Management_System/Program.cs:87 | deleting index `i` shortens the list by one, keeps the records before `i`, shifts the ones after it down by one, and loses exactly that record from the multiset |
| `Registry.RemoveAtUnique` | Employee_Management_System/Program.cs:84-87 | with unique ids, deleting a record keeps ids unique and leaves no record with the deleted id |
| `Registry.AfterRemove` | Employee_Management_System/Program.cs:82-95 | an absent id leaves the list unchanged; a present id deletes exactly the first record that has it, keeping the order of the rest |
| `Registry.RemoveKeepsUniqueIds` | Employee_Management_System/Program.cs:84-89 | with unique ids before a remove, ids are unique after it and the removed id no longer appears |
| `Registry.AfterReassign` | Employee_Management_System/Program.cs:222-235 | no id, name or salary changes; every record but the first one with the id stays as it was; that record gets the new department; unique ids stay unique |
| `Registry.AddTotalSalary` | Employee_Management_System/Program.cs:77 | an accepted add raises the salary total by the new salary; a rejected add leaves it |
| `Registry.RemoveTotalSalary` | Employee_Management_System/Program.cs:87 | removing a present id lowers the total by the removed record's salary; an absent id leaves it |
| `Registry.ReassignTotalSalary` | Employee_Management_System/Program.cs:129 | a department reassignment never changes the salary total |
| `Manager.RowOf` | Employee_Management_System/Program.cs:109 | a listing line carries the record's id, salary and department, and a name made of the first name, one space and the last name |
| `Manager.EmployeeManager.constructor` | Employee_Management_System/Program.cs:60-65 | a new manager has an empty list, a count of 0, and satisfies the invariant |
| `Manager.EmployeeManager.AddEmployee` | Employee_Management_System/Program.cs:68-79 | reports a duplicate and changes nothing when the id is present; otherwise appends the record and raises the count by one; keeps the invariant |
| `Manager.EmployeeManager.RemoveEmployee` | Employee_Management_System/Program.cs:82-95 | a present id: deletes the first matching record, lowers the count by one and reports the id as removed; an absent id: reports not found and changes nothing; keeps the invariant, and the id is gone afterwards |
| `Manager.EmployeeManager.ViewEmployees` | Employee_Management_System/Program.cs:98-111 | the empty-state result exactly when the list is empty; otherwise one row per record, in list order, with id, full name, salary and department |
| `Manager.EmployeeManager.CalculateTotalSalary` | Employee_Management_System/Program.cs:114-118 | the sum of the current records' salaries, 0 for an empty list |
| `Manager.EmployeeManager.TotalEmployees` | Employee_Management_System/Program.cs:121-124 | the counter, which equals the list's length under the invariant |
| `Manager.EmployeeManager.AssignEmployeeToDepartment` | Employee_Management_System/Program.cs:127-131 | only the department of the given record changes; the count and every other record stay as they were; the invariant is kept |
| `Console.EmployeeOf` | Employee_Management_System/Program.cs:193 | the record choice 1 builds keeps the entered id, names and salary, and its department is the one the entered menu number selects |
| `Console.NextEmployees` | Employee_Management_System/Program.cs:163-250 | one turn of the menu grows the list by at most one record |
| `Console.NextEmployeesUniqueIds` | Employee_Management_System/Program.cs:163-250 | no turn of the menu, whatever its input, makes two records share an id |
| `Console.ReplayUniqueIds` | Employee_Management_System/Program.cs:138-252 | after any sequence of turns from an empty manager, ids are unique |
| `Console.Replay` | Employee_Management_System/Program.cs:138-252 | the list after a sequence of turns from an empty manager; after `n` turns it holds at most `n` records |
| `Console.DepartmentMenu` | Employee_Management_System/Program.cs:180-186 | the menu lists the six departments in enumeration order, and typing an entry's number selects that entry's department |
| `Console.ListingOf` | Employee_Management_System/Program.cs:100-110 | the listing choice 3 shows: the empty-state notice exactly when the list is empty, otherwise one row per record in list order |
| `Console.ReplyOf` | Employee_Management_System/Program.cs:154-250 | the reply a turn gives on a given list: exit exactly on choice 7, invalid input exactly on a non-number, a duplicate notice exactly when the id is present, a removal exactly when it is present, not-found on a reassign only when it is absent, and an assignment only when it is present, to the department the entered number selects |
| `Console.Step` | Employee_Management_System/Program.cs:154-250 | dispatches a menu choice. 1 to 6 update the list as `NextEmployees` says and give the matching reply; 7 exits; any other number gives an invalid-choice reply; a non-number gives an invalid-input reply; the count moves with the list on every turn, up by one on an accepted add, down by one on a successful remove, and is unchanged on every other turn; the invariant is kept; on a valid manager the reply is `ReplyOf` the list before the turn |
| `Console.Run` | Employee_Management_System/Program.cs:138-252 | from a fresh manager: one reply per input, stopping just after the first exit choice; the final list is the `Replay` of the consumed inputs; the final count equals the list's length, and ids are unique; the reply to input `k` is `ReplyOf` the list that the first `k` inputs produce |

## Left out

- Console text: prompts, the menu banner and messages are replaced by reply values (`Reply`, `AddOutcome`, `RemoveOutcome`, `Listing`). No row is turned into text, and an enum value has no rendered name.
- Parse failures: `int.Parse` and `double.Parse` throw on malformed input (lines 168, 177, 190, 199, 221, 233). Inputs reach the model already parsed. Only the `TryParse` failure of the menu choice (line 155) is modelled, as `NotANumber`.
- End of input: at end of input the program's `ReadLine` returns null, `TryParse` fails, and the menu loop repeats forever. `Run` instead stops when its input sequence is exhausted.
- The finalizer `~Employee` (lines 45-48): it runs under garbage collection and has no sequential meaning.
- Floating-point salary: salaries are `real`, so the sum is exact. The rounding of `double` addition in `Sum` is not modelled.
- Integer width: ids, department numbers and the counter are unbounded integers. The counter is a C# `int`, but it is raised only when a record is appended and lowered only when one is deleted, so it always equals the list's `Count` and cannot overflow. The department subtraction `departmentNumber - 1` (lines 191, 234) is unchecked C# arithmetic and wraps for `int.MinValue` to `int.MaxValue`; the model gives -2147483649 instead. Both are unnamed departments, so only the stored value differs.
- Object identity: an `Employee` is a value in the list. `AssignEmployeeToDepartment` takes the index of the record that the id lookup found, not an object reference. The program only ever passes a record it found in the list; an `Employee` outside the list, which the C# signature would also accept, is not modelled.
- Class structure: the `Person` base class and the `IManager` interface (lines 19-23, 52-55) are flattened into one record and one class.
- The static counter (line 65) is shared by all managers. It is modelled as an instance field, and the program creates only one manager.
