/** Query counters that `Table.execute` reports to. */
module Util {

  /**
   * The two query counters: queries against in-memory tables and against
   * tables stored on disk. They only ever grow.
   */
  class Performance {
    var memDBQueries: nat
    var physDBQueries: nat

    constructor ()
      ensures memDBQueries == 0 && physDBQueries == 0
    {
      memDBQueries := 0;
      physDBQueries := 0;
    }

    /** Counts one query against an in-memory table. */
    method AddMemDBQuery()
      modifies this
      ensures memDBQueries == old(memDBQueries) + 1
      ensures physDBQueries == old(physDBQueries)
    {
      memDBQueries := memDBQueries + 1;
    }

    /** Counts one query against a table stored on disk. */
    method AddPhysDBQuery()
      modifies this
      ensures physDBQueries == old(physDBQueries) + 1
      ensures memDBQueries == old(memDBQueries)
    {
      physDBQueries := physDBQueries + 1;
    }
  }
}
