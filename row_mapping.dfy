/**
 * Turning the rows of a CSV file into `User` entities: the header row is
 * dropped, every other row is read positionally as (name, age, email), and
 * the first row that cannot be read ends the whole operation.
 */
module RowMapping {
  import opened Wrappers
  import opened JavaLang
  import opened Exceptions

  /** One line of the file as the CSV reader splits it (`String[]`). */
  type Row = seq<string>

  /** The `User` entity as built from a row, before the store gives it an id. */
  datatype User = User(name: string, age: int32, email: string)

  /**
   * What `CSVReader.readAll()` over the opened stream yields: every row of
   * the file, or the `IOException` / `CsvException` it throws.
   */
  datatype ReadAll = Parsed(rows: seq<Row>) | IoFailure(detail: string) | CsvFailure(detail: string)

  /**
   * `new User(i[0], Integer.parseInt(i[1]), i[2])`. Java evaluates the
   * arguments left to right, so a row of fewer than two fields fails on
   * its own length, a bad age is reported before a missing third field,
   * and fields past the third are ignored.
   */
  function MapRow(row: Row): (r: Result<User, Exception>)
    ensures r.Success? <==> |row| >= 3 && ParseInt(row[1]).Some?
    ensures r.Success? ==> r.value == User(row[0], ParseInt(row[1]).value, row[2])
    ensures r.Failure? ==>
      if |row| >= 2 && ParseInt(row[1]).None? then r.error == NumberFormatException(row[1])
      else r.error == ArrayIndexOutOfBoundsException(|row|, |row|)
  {
    if |row| < 2 then Failure(ArrayIndexOutOfBoundsException(|row|, |row|))
    else match ParseInt(row[1])
      case None => Failure(NumberFormatException(row[1]))
      case Some(age) =>
        if |row| < 3 then Failure(ArrayIndexOutOfBoundsException(2, 2))
        else Success(User(row[0], age, row[2]))
  }

  /** Reference definition of the mapping loop: every row in order, or the first failure. */
  function MapRows(rows: seq<Row>): Result<seq<User>, Exception>
    decreases |rows|
  {
    if rows == [] then Success([])
    else match MapRow(rows[0])
      case Failure(e) => Failure(e)
      case Success(u) =>
        match MapRows(rows[1..])
        case Failure(e) => Failure(e)
        case Success(us) => Success([u] + us)
  }

  /** `items.removeFirst()` when the list is not empty. */
  function DropHeader(rows: seq<Row>): (r: seq<Row>)
    ensures |r| == if rows == [] then 0 else |rows| - 1
    ensures forall k :: 0 <= k < |r| ==> r[k] == rows[k + 1]
  {
    if rows == [] then [] else rows[1..]
  }

  /**
   * What one call of the read-and-persist logic does with the reader's
   * output: the batch handed to `saveAll`, or the exception that prevented it.
   */
  function Ingest(read: ReadAll): (r: Result<seq<User>, Exception>)
    ensures read.IoFailure? ==> r == Failure(IOException(read.detail))
    ensures read.CsvFailure? ==> r == Failure(CsvException(read.detail))
    ensures r.Success? ==> read.Parsed?
    ensures r.Failure? ==> (r.error.IsChecked() <==> !read.Parsed?)
    ensures read.Parsed? && r.Failure? ==>
      r.error.NumberFormatException? || r.error.ArrayIndexOutOfBoundsException?
  {
    match read
    case IoFailure(d) => Failure(IOException(d))
    case CsvFailure(d) => Failure(CsvException(d))
    case Parsed(rows) =>
      var mapped := MapRows(DropHeader(rows));
      if mapped.Failure? then RowErrorsAreUnchecked(DropHeader(rows)); mapped
      else mapped
  }

  /** The only exceptions the row mapping throws are parseInt's and the array index's. */
  lemma {:induction false} RowErrorsAreUnchecked(rows: seq<Row>)
    requires MapRows(rows).Failure?
    ensures MapRows(rows).error.NumberFormatException? || MapRows(rows).error.ArrayIndexOutOfBoundsException?
    decreases |rows|
  {
    if MapRow(rows[0]).Success? {
      RowErrorsAreUnchecked(rows[1..]);
    }
  }

  // ---------------------------------------------------------------------
  // The mapping loop
  // ---------------------------------------------------------------------

  /**
   * The `for (String[] i : items)` loop that appends one `User` per row to
   * an `ArrayList`; an exception thrown for a row leaves the loop at once.
   */
  method MapRowsToUsers(items: seq<Row>) returns (r: Result<seq<User>, Exception>)
    ensures r == MapRows(items)
  {
    var users: seq<User> := [];
    for i := 0 to |items|
      invariant |users| == i
      invariant forall j :: 0 <= j < i ==> MapRow(items[j]) == Success(users[j])
    {
      var row := MapRow(items[i]);
      if row.Failure? {
        MapRowsFailsAtFirstBadRow(items, i);
        return Failure(row.error);
      }
      users := users + [row.value];
    }
    MapRowsSucceeds(items);
    assert users == MapRows(items).value;
    r := Success(users);
  }

  // ---------------------------------------------------------------------
  // Properties of the mapping
  // ---------------------------------------------------------------------

  /** When every row can be read, the batch has one user per row, in row order. */
  lemma {:induction false} MapRowsSucceeds(rows: seq<Row>)
    requires forall k :: 0 <= k < |rows| ==> MapRow(rows[k]).Success?
    ensures MapRows(rows).Success? && |MapRows(rows).value| == |rows|
    ensures forall k :: 0 <= k < |rows| ==> MapRows(rows).value[k] == MapRow(rows[k]).value
    decreases |rows|
  {
    if rows != [] {
      MapRowsSucceeds(rows[1..]);
      assert forall k :: 1 <= k < |rows| ==> rows[1..][k - 1] == rows[k];
    }
  }

  /** The first row that cannot be read decides the failure; no batch is produced. */
  lemma {:induction false} MapRowsFailsAtFirstBadRow(rows: seq<Row>, k: nat)
    requires k < |rows| && MapRow(rows[k]).Failure?
    requires forall j :: 0 <= j < k ==> MapRow(rows[j]).Success?
    ensures MapRows(rows) == Failure(MapRow(rows[k]).error)
    decreases k
  {
    if k > 0 {
      assert forall j :: 0 <= j < k - 1 ==> rows[1..][j] == rows[j + 1];
      MapRowsFailsAtFirstBadRow(rows[1..], k - 1);
    }
  }

  /** A file that is empty or holds only the header saves an empty batch. */
  lemma IngestHeaderOnly(rows: seq<Row>)
    requires |rows| <= 1
    ensures Ingest(Parsed(rows)) == Success([])
  {
  }

  /**
   * A header followed by N readable rows saves exactly N users, the user
   * at position k - 1 built from fields 0, 1 and 2 of row k.
   */
  lemma IngestSavesEveryRowAfterHeader(rows: seq<Row>)
    requires forall k :: 1 <= k < |rows| ==> MapRow(rows[k]).Success?
    ensures Ingest(Parsed(rows)).Success?
    ensures |Ingest(Parsed(rows)).value| == if rows == [] then 0 else |rows| - 1
    ensures forall k :: 1 <= k < |rows| ==>
      |rows[k]| >= 3 && ParseInt(rows[k][1]).Some? &&
      Ingest(Parsed(rows)).value[k - 1] == User(rows[k][0], ParseInt(rows[k][1]).value, rows[k][2])
  {
    var items := DropHeader(rows);
    MapRowsSucceeds(items);
    assert forall k :: 1 <= k < |rows| ==> items[k - 1] == rows[k] && MapRow(rows[k]).Success?;
  }

  /** A bad row after the header fails the whole call with that row's exception. */
  lemma IngestFailsOnFirstBadRow(rows: seq<Row>, k: nat)
    requires 1 <= k < |rows| && MapRow(rows[k]).Failure?
    requires forall j :: 1 <= j < k ==> MapRow(rows[j]).Success?
    ensures Ingest(Parsed(rows)) == Failure(MapRow(rows[k]).error)
  {
    var items := DropHeader(rows);
    assert forall j :: 0 <= j < k - 1 ==> items[j] == rows[j + 1];
    MapRowsFailsAtFirstBadRow(items, k - 1);
  }

  /** A header and one row whose age is "x": nothing is saved, parseInt's exception escapes. */
  lemma NonNumericAgeFailsIngest()
    ensures Ingest(Parsed([["name", "age", "email"], ["a", "x", "e1"]]))
         == Failure(NumberFormatException("x"))
  {
    ParseIntRejectsNonDigit("x", 0);
  }
}
