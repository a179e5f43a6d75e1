/**
 * The value types of the employee registry: the optional value returned by
 * an id lookup, the department enumeration and the employee record.
 */
module Employees {

  datatype Option<T> = None | Some(value: T)

  /**
   * A department is the underlying integer of the enumeration. The cast from
   * the menu number is unchecked in the program, so any integer can end up
   * stored in a record; only 0 .. 5 have a name.
   */
  type Department = int

  const IT: Department := 0
  const HR: Department := 1
  const FINANCE: Department := 2
  const MARKETING: Department := 3
  const OPERATIONS: Department := 4
  const SALES: Department := 5

  /** The enumeration's member names, in declaration order (index = value). */
  const DEPARTMENT_NAMES: seq<string> := ["IT", "HR", "Finance", "Marketing", "Operations", "Sales"]

  predicate IsNamedDepartment(d: Department)
  {
    0 <= d < |DEPARTMENT_NAMES|
  }

  /**
   * The department chosen by typing `number` at a department prompt: the
   * menu numbers its entries from 1, the enumeration from 0.
   */
  function DepartmentFromNumber(number: int): (d: Department)
    ensures d + 1 == number
    ensures IsNamedDepartment(d) <==> 1 <= number <= |DEPARTMENT_NAMES|
  {
    number - 1
  }

  /** One employee record; the id is fixed at construction. */
  datatype Employee = Employee(
    id: int,
    firstName: string,
    lastName: string,
    salary: real,
    department: Department)
}
