/** The database connection as the repositories see it: an environment that decides, statement by
    statement, whether the statement is carried out or returns an error. */
module Database {

  class Connection {
    /** The statements that return an error, by number. The environment fixes it; no code knows it. */
    const faults: set<nat>
    /** Statements issued so far. */
    var issued: nat
    /** Some write that others depend on has returned an error. */
    var failed: bool

    constructor (faults: set<nat>)
      ensures this.faults == faults && issued == 0 && !failed
    {
      this.faults := faults;
      issued, failed := 0, false;
    }

    /** A write in the middle of an operation; `allowed` is whether the table's checks admit it. */
    method Exec(allowed: bool) returns (ok: bool)
      modifies this
      ensures ok <==> allowed && old(issued) !in faults
      ensures issued == old(issued) + 1 && failed == (old(failed) || !ok)
    {
      ok := allowed && issued !in faults;
      issued := issued + 1;
      failed := failed || !ok;
    }

    /** A read, or a write whose error leaves nothing half done. */
    method Try() returns (ok: bool)
      modifies this`issued
      ensures ok <==> old(issued) !in faults
      ensures issued == old(issued) + 1
    {
      ok := issued !in faults;
      issued := issued + 1;
    }
  }
}
