/** `CsvFileProcessor`: the stand-alone read-map-save service. */
module FileProcessor {
  import opened Wrappers
  import opened Exceptions
  import opened RowMapping
  import opened Persistence

  class CsvFileProcessor {
    const userRepository: UserRepository

    constructor (userRepository: UserRepository)
      ensures this.userRepository == userRepository
    {
      this.userRepository := userRepository;
    }

    /**
     * `processFile(inputStream)`: read every row, drop the header, map the
     * rest to users and save them with one `saveAll` call. Any exception
     * (the declared `IOException` / `CsvException`, or a `NumberFormatException`
     * or out-of-range index from a row) is returned before anything is saved.
     */
    method ProcessFile(read: ReadAll) returns (thrown: Option<Exception>)
      modifies userRepository
      ensures thrown.None? <==> Ingest(read).Success?
      ensures thrown.Some? ==> thrown.value == Ingest(read).error
      ensures userRepository.batches ==
        old(userRepository.batches) + if Ingest(read).Success? then [Ingest(read).value] else []
    {
      var items: seq<Row>;
      match read {
        case IoFailure(d) => return Some(IOException(d));
        case CsvFailure(d) => return Some(CsvException(d));
        case Parsed(rows) => items := rows;
      }
      if items != [] {
        items := items[1..];
      }
      var users := MapRowsToUsers(items);
      if users.Failure? {
        return Some(users.error);
      }
      userRepository.SaveAll(users.value);
      thrown := None;
    }
  }
}
