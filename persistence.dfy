/** The part of the persistence layer the core uses: `UserRepository.saveAll`. */
module Persistence {
  import opened RowMapping

  /**
   * `UserRepository`. Of the store only what this core does to it is kept:
   * the log of batches handed to `saveAll`, each stored as one unit.
   */
  class UserRepository {
    ghost var batches: seq<seq<User>>

    constructor ()
      ensures batches == []
    {
      batches := [];
    }

    /** `saveAll(users)`: the whole list is stored as one batch. */
    method SaveAll(users: seq<User>)
      modifies this
      ensures batches == old(batches) + [users]
    {
      batches := batches + [users];
    }
  }
}
