/**
 * The exceptions that travel through the ingestion paths, with the message
 * `getMessage()` returns for each.
 */
module Exceptions {
  import opened JavaLang

  datatype Exception =
      /** `java.io.IOException` opening or reading the byte stream. */
    | IOException(detail: string)
      /** OpenCSV's `CsvException` from `CSVReader.readAll`. */
    | CsvException(detail: string)
      /** `Integer.parseInt` given something that is not a 32-bit decimal number. */
    | NumberFormatException(input: string)
      /** `row[index]` on a row of `length` fields. */
    | ArrayIndexOutOfBoundsException(index: nat, length: nat)
      /** Raised by the upload validator. */
    | InvalidFileException(detail: string)
      /** What the upload path turns an `IOException` into. */
    | FileProcessingException(detail: string)
      /** What the upload path turns a `CsvException` into. */
    | CsvProcessingException(detail: string)
      /**
       * Any other exception that reaches `GlobalExceptionHandler`, other than
       * the standard Spring MVC exceptions that the inherited
       * `ResponseEntityExceptionHandler` handlers cover.
       */
    | OtherException(detail: string)
  {
    /**
     * `getMessage()`: the detail the exception was created with, or for the
     * two JDK exceptions the JDK's wording, which quotes the bad input or
     * names the index.
     */
    function Message(): (m: string)
      ensures NumberFormatException? ==>
        |m| == |input| + 20 && m[..19] == "For input string: \"" && m[19..|m| - 1] == input && m[|m| - 1] == '"'
      ensures ArrayIndexOutOfBoundsException? ==>
        var i := FormatNat(index);
        |m| > 6 + |i| && m[..6] == "Index " && m[6..6 + |i|] == i && m[6 + |i|] == ' '
      ensures !NumberFormatException? && !ArrayIndexOutOfBoundsException? ==> m == detail
    {
      match this
      case IOException(d) => d
      case CsvException(d) => d
      case NumberFormatException(s) => "For input string: \"" + s + "\""
      case ArrayIndexOutOfBoundsException(i, n) =>
        "Index " + FormatNat(i) + " out of bounds for length " + FormatNat(n)
      case InvalidFileException(d) => d
      case FileProcessingException(d) => d
      case CsvProcessingException(d) => d
      case OtherException(d) => d
    }

    /** The checked exceptions `readAndPersistData` declares: `IOException | CsvException`. */
    predicate IsChecked() {
      IOException? || CsvException?
    }
  }

  /** Two `NumberFormatException` messages are equal exactly when they quote the same input. */
  lemma NumberFormatMessageNamesInput(s: string, t: string)
    ensures NumberFormatException(s).Message() == NumberFormatException(t).Message() <==> s == t
  {
    var ms, mt := NumberFormatException(s).Message(), NumberFormatException(t).Message();
    if ms == mt {
      assert s == ms[19..|ms| - 1];
    }
  }
}
