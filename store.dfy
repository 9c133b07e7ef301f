/** The database the handlers share: one sequence of rows per table, the
    next value of each autoincrement id, and the table constraints as an
    object invariant. Each handler that writes takes the database and says
    which tables it changes. */
module Store {
  import opened Wrappers
  import opened Models

  /** users: ids below the counter; id, uuid and email unique. */
  predicate UsersValid(users: seq<User>, nextId: nat) {
    (forall i :: 0 <= i < |users| ==> users[i].id < nextId) &&
    (forall i, j :: 0 <= i < j < |users| ==>
       users[i].id != users[j].id && users[i].uuid != users[j].uuid && users[i].email != users[j].email)
  }

  /** customer_profiles: ids below the counter; id, uuid and company_name unique. */
  predicate CustomerProfilesValid(profiles: seq<CustomerProfile>, nextId: nat) {
    (forall i :: 0 <= i < |profiles| ==> profiles[i].id < nextId) &&
    (forall i, j :: 0 <= i < j < |profiles| ==>
       profiles[i].id != profiles[j].id && profiles[i].uuid != profiles[j].uuid &&
       profiles[i].company_name != profiles[j].company_name)
  }

  /** printer_profiles: ids below the counter; id, uuid and user_id unique. */
  predicate PrinterProfilesValid(profiles: seq<PrinterProfile>, nextId: nat) {
    (forall i :: 0 <= i < |profiles| ==> profiles[i].id < nextId) &&
    (forall i, j :: 0 <= i < j < |profiles| ==>
       profiles[i].id != profiles[j].id && profiles[i].uuid != profiles[j].uuid &&
       profiles[i].user_id != profiles[j].user_id)
  }

  /** printing_jobs: ids below the counter; id and uuid unique; every row
      meets the check constraints and holds a uuid in its uuid column. */
  predicate JobsValid(jobs: seq<PrintingJob>, nextId: nat) {
    (forall i :: 0 <= i < |jobs| ==> jobs[i].id < nextId && JobRowValid(jobs[i]) && UuidLiteral(jobs[i].uuid)) &&
    (forall i, j :: 0 <= i < j < |jobs| ==> jobs[i].id != jobs[j].id && jobs[i].uuid != jobs[j].uuid)
  }

  class Database {
    var users: seq<User>
    var customerProfiles: seq<CustomerProfile>
    var printerProfiles: seq<PrinterProfile>
    var jobs: seq<PrintingJob>
    var nextUserId: nat
    var nextCustomerProfileId: nat
    var nextPrinterProfileId: nat
    var nextJobId: nat

    ghost predicate Valid()
      reads this
    {
      UsersValid(users, nextUserId) &&
      CustomerProfilesValid(customerProfiles, nextCustomerProfileId) &&
      PrinterProfilesValid(printerProfiles, nextPrinterProfileId) &&
      JobsValid(jobs, nextJobId)
    }

    /** An empty database whose sequences start at 1. */
    constructor ()
      ensures Valid()
      ensures users == [] && customerProfiles == [] && printerProfiles == [] && jobs == []
      ensures nextUserId == 1 && nextCustomerProfileId == 1 && nextPrinterProfileId == 1 && nextJobId == 1
    {
      users, customerProfiles, printerProfiles, jobs := [], [], [], [];
      nextUserId, nextCustomerProfileId, nextPrinterProfileId, nextJobId := 1, 1, 1, 1;
    }
  }
}
