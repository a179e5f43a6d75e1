/**
 * The registry's list of records as a value: the id lookups, the salary
 * total, and what each registry operation does to the list. The manager
 * class is proved against these functions.
 */
module Registry {
  import opened Employees

  /** Index of the first record whose id is `id` (a linear scan from the front). */
  function IndexOf(es: seq<Employee>, id: int): (r: Option<nat>)
    ensures r.Some? ==> r.value < |es| && es[r.value].id == id
    ensures r.Some? ==> forall j :: 0 <= j < r.value ==> es[j].id != id
    ensures r.None? <==> forall j :: 0 <= j < |es| ==> es[j].id != id
  {
    if es == [] then None
    else if es[0].id == id then Some(0)
    else match IndexOf(es[1..], id)
      case None => None
      case Some(k) => Some(k + 1)
  }

  /** Whether some record carries `id`. */
  function HasId(es: seq<Employee>, id: int): (b: bool)
    ensures b <==> exists j :: 0 <= j < |es| && es[j].id == id
  {
    IndexOf(es, id).Some?
  }

  /** The first record whose id is `id`, if any. */
  function Lookup(es: seq<Employee>, id: int): (r: Option<Employee>)
    ensures r.None? <==> !HasId(es, id)
    ensures r.Some? ==> r.value in es && r.value.id == id
    ensures r.Some? ==> r.value == es[IndexOf(es, id).value]
  {
    match IndexOf(es, id)
    case None => None
    case Some(i) => Some(es[i])
  }

  /** No two records share an id. */
  ghost predicate UniqueIds(es: seq<Employee>)
  {
    forall i, j :: 0 <= i < j < |es| ==> es[i].id != es[j].id
  }

  /** Under unique ids, looking up a record's own id finds that record. */
  lemma {:induction false} IndexOfUnique(es: seq<Employee>, j: nat)
    requires UniqueIds(es)
    requires j < |es|
    ensures IndexOf(es, es[j].id) == Some(j)
  {
  }

  /** The sum of the salaries, accumulated front to back. */
  function SalarySum(es: seq<Employee>): (total: real)
    ensures es == [] ==> total == 0.0
    ensures (forall j :: 0 <= j < |es| ==> es[j].salary >= 0.0) ==> total >= 0.0
    ensures (forall j :: 0 <= j < |es| ==> es[j].salary > 0.0) && es != [] ==> total > 0.0
  {
    if es == [] then 0.0 else SalarySum(es[..|es| - 1]) + es[|es| - 1].salary
  }

  lemma {:induction false} SalarySumConcat(a: seq<Employee>, b: seq<Employee>)
    ensures SalarySum(a + b) == SalarySum(a) + SalarySum(b)
    decreases |b|
  {
    if b == [] {
      assert a + b == a;
    } else {
      var n := |b| - 1;
      assert (a + b)[..|a + b| - 1] == a + b[..n];
      SalarySumConcat(a, b[..n]);
    }
  }

  lemma {:induction false} SalarySumSingleton(e: Employee)
    ensures SalarySum([e]) == e.salary
  {
    assert [e][..0] == [];
  }

  /** The total is insensitive to every field but the salary. */
  lemma {:induction false} SalarySumSameSalaries(a: seq<Employee>, b: seq<Employee>)
    requires |a| == |b|
    requires forall j :: 0 <= j < |a| ==> a[j].salary == b[j].salary
    ensures SalarySum(a) == SalarySum(b)
    decreases |a|
  {
    if a != [] {
      var n := |a| - 1;
      SalarySumSameSalaries(a[..n], b[..n]);
    }
  }

  /** Placing one record between two lists adds its salary to their totals. */
  lemma {:induction false} SalarySumSplit(before: seq<Employee>, e: Employee, after: seq<Employee>)
    ensures SalarySum(before + [e] + after) == SalarySum(before) + e.salary + SalarySum(after)
  {
    SalarySumConcat(before + [e], after);
    SalarySumConcat(before, [e]);
    SalarySumSingleton(e);
  }

  /** Deleting the record at `i` takes its salary off the total. */
  lemma {:induction false} SalarySumRemoveAt(es: seq<Employee>, i: nat)
    requires i < |es|
    ensures SalarySum(es[..i] + es[i + 1..]) == SalarySum(es) - es[i].salary
  {
    var before, after := es[..i], es[i + 1..];
    assert es == before + [es[i]] + after;
    SalarySumSplit(before, es[i], after);
    SalarySumConcat(before, after);
  }

  /**
   * The list after an add: a record whose id is already present is
   * rejected and the list is left as it was; otherwise it goes at the end.
   */
  function AfterAdd(es: seq<Employee>, e: Employee): (r: seq<Employee>)
    ensures HasId(es, e.id) ==> r == es
    ensures !HasId(es, e.id) ==> |r| == |es| + 1 && r[..|es|] == es && r[|es|] == e
    ensures HasId(r, e.id)
    ensures UniqueIds(es) ==> UniqueIds(r)
  {
    if HasId(es, e.id) then es else es + [e]
  }

  /** Deleting the record at index `i`, keeping the order of the others. */
  function RemoveAt(es: seq<Employee>, i: nat): (r: seq<Employee>)
    requires i < |es|
    ensures |r| == |es| - 1
    ensures forall j :: 0 <= j < i ==> r[j] == es[j]
    ensures forall j :: i <= j < |r| ==> r[j] == es[j + 1]
    ensures multiset(r) + multiset{es[i]} == multiset(es)
  {
    assert es == es[..i] + [es[i]] + es[i + 1..];
    es[..i] + es[i + 1..]
  }

  /** Removing the record at `i` keeps ids unique and drops the only record with its id. */
  lemma {:induction false} RemoveAtUnique(es: seq<Employee>, i: nat)
    requires i < |es|
    requires UniqueIds(es)
    ensures UniqueIds(RemoveAt(es, i))
    ensures !HasId(RemoveAt(es, i), es[i].id)
  {
    var r := RemoveAt(es, i);
    forall p, q | 0 <= p < q < |r|
      ensures r[p].id != r[q].id
    {
      var p' := if p < i then p else p + 1;
      var q' := if q < i then q else q + 1;
      assert r[p] == es[p'] && r[q] == es[q'];
    }
    forall p | 0 <= p < |r|
      ensures r[p].id != es[i].id
    {
      var p' := if p < i then p else p + 1;
      assert r[p] == es[p'];
    }
  }

  /**
   * The list after a remove by id: the first record with that id is
   * deleted; when there is none the list is left as it was.
   */
  function AfterRemove(es: seq<Employee>, id: int): (r: seq<Employee>)
    ensures !HasId(es, id) ==> r == es
    ensures HasId(es, id) ==> r == RemoveAt(es, IndexOf(es, id).value)
  {
    match IndexOf(es, id)
    case None => es
    case Some(i) => RemoveAt(es, i)
  }

  /**
   * Under unique ids, a remove keeps them unique and leaves no record with
   * the removed id.
   */
  lemma {:induction false} RemoveKeepsUniqueIds(es: seq<Employee>, id: int)
    requires UniqueIds(es)
    ensures UniqueIds(AfterRemove(es, id))
    ensures !HasId(AfterRemove(es, id), id)
  {
    if HasId(es, id) {
      RemoveAtUnique(es, IndexOf(es, id).value);
    }
  }

  /**
   * The list after reassigning the department of the first record with id
   * `id`; when there is none the list is left as it was.
   */
  function AfterReassign(es: seq<Employee>, id: int, d: Department): (r: seq<Employee>)
    ensures |r| == |es|
    ensures forall j :: 0 <= j < |r| ==>
      && r[j].id == es[j].id
      && r[j].firstName == es[j].firstName
      && r[j].lastName == es[j].lastName
      && r[j].salary == es[j].salary
    ensures forall j :: 0 <= j < |r| && IndexOf(es, id) != Some(j) ==> r[j] == es[j]
    ensures HasId(es, id) ==> r[IndexOf(es, id).value].department == d
    ensures UniqueIds(es) ==> UniqueIds(r)
  {
    match IndexOf(es, id)
    case None => es
    case Some(i) => es[i := es[i].(department := d)]
  }

  lemma {:induction false} AddTotalSalary(es: seq<Employee>, e: Employee)
    ensures SalarySum(AfterAdd(es, e)) == if HasId(es, e.id) then SalarySum(es) else SalarySum(es) + e.salary
  {
    if !HasId(es, e.id) {
      SalarySumConcat(es, [e]);
      SalarySumSingleton(e);
    }
  }

  lemma {:induction false} RemoveTotalSalary(es: seq<Employee>, id: int)
    ensures HasId(es, id) ==> SalarySum(AfterRemove(es, id)) == SalarySum(es) - es[IndexOf(es, id).value].salary
    ensures !HasId(es, id) ==> SalarySum(AfterRemove(es, id)) == SalarySum(es)
  {
    if HasId(es, id) {
      SalarySumRemoveAt(es, IndexOf(es, id).value);
    }
  }

  /** A reassignment never moves the salary total. */
  lemma {:induction false} ReassignTotalSalary(es: seq<Employee>, id: int, d: Department)
    ensures SalarySum(AfterReassign(es, id, d)) == SalarySum(es)
  {
    SalarySumSameSalaries(AfterReassign(es, id, d), es);
  }
}
