/**
  One table row (`EmployeeRow` in src/EmployeeList.jsx) and its delete
  confirmation dialog. The DELETE button, the dialog's close button and its
  Cancel button all toggle the dialog; its Yes button confirms.
 */
module RowDialog {
  import opened Employees
  import opened ListController

  class EmployeeRow {
    /** The record this row shows (`props.employee`). */
    const employee: ClientEmployee
    /** The controller whose delete handler the row was given (`props.deleteEmployee`). */
    const list: EmployeeList
    var modalVisible: bool

    /** A new row shows its record with the dialog hidden. */
    constructor (employee: ClientEmployee, list: EmployeeList)
      ensures this.employee == employee && this.list == list
      ensures !modalVisible
    {
      this.employee := employee;
      this.list := list;
      modalVisible := false;
    }

    /** Show the dialog if hidden, hide it if shown. */
    method ToggleModal()
      modifies this
      ensures modalVisible == !old(modalVisible)
    {
      modalVisible := !modalVisible;
    }

    /**
      Dispatch the delete for this row's own id, once, then toggle the dialog:
      an open dialog ends hidden whatever the delete's outcome.
     */
    method ConfirmDelete(response: DeleteOutcome, reload: LoadOutcome)
      modifies this, list
      ensures list.requests == old(list.requests) + [DeleteEmployeeById(employee.id)]
                               + (if Reloads(response) then [GetEmployees] else [])
      ensures list.employees == AfterDelete(old(list.employees), response, reload, list.parseDate)
      ensures modalVisible == !old(modalVisible)
      ensures old(modalVisible) ==> !modalVisible
    {
      list.DeleteEmployee(employee.id, response, reload);
      ToggleModal();
    }
  }

  /** Opening the dialog and cancelling it restores the row and sends nothing. */
  method OpenThenCancel(row: EmployeeRow)
    modifies row
    ensures row.modalVisible == old(row.modalVisible)
    ensures row.list.requests == old(row.list.requests) && row.list.employees == old(row.list.employees)
  {
    row.ToggleModal();
    row.ToggleModal();
  }
}
