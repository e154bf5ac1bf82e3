/** `CsvFileValidator.validateFile` (and the identical private check in `CsvService`). */
module FileValidator {
  import opened Wrappers
  import opened JavaLang
  import opened Exceptions
  import opened RowMapping

  /** `CSV_CONTENT_TYPE`. */
  const CsvContentType: string := "text/csv"

  const EmptyFileMessage: string := "File is empty"
  const InvalidTypeMessage: string := "Invalid file type. Only CSV files are allowed"

  /**
   * The uploaded `MultipartFile`: its size in bytes (`isEmpty()` is size
   * zero), its declared content type (`null` when absent), and what the CSV
   * reader makes of its input stream.
   */
  datatype MultipartFile = MultipartFile(size: nat, contentType: Option<string>, content: ReadAll)

  /** Empty first, then the case-insensitive content-type comparison. */
  function ValidateFile(file: MultipartFile): (r: Outcome<Exception>)
    ensures file.size == 0 ==> r == Fail(InvalidFileException(EmptyFileMessage))
    ensures file.size > 0 ==>
      (r == Pass <==> EqualsIgnoreCase(CsvContentType, file.contentType))
    ensures file.size > 0 && r.Fail? ==> r == Fail(InvalidFileException(InvalidTypeMessage))
  {
    if file.size == 0 then Fail(InvalidFileException(EmptyFileMessage))
    else if !EqualsIgnoreCase(CsvContentType, file.contentType) then Fail(InvalidFileException(InvalidTypeMessage))
    else Pass
  }

  /**
   * Independent statement of which content types pass: exactly eight
   * characters, each the letter of "text/csv" in either case ('s' also as
   * U+017F, whose upper case is 'S'), and the '/' itself.
   */
  predicate SpellsTextCsv(t: string) {
    |t| == 8 &&
    t[0] in {'t', 'T'} && t[1] in {'e', 'E'} && t[2] in {'x', 'X'} && t[3] in {'t', 'T'} &&
    t[4] == '/' && t[5] in {'c', 'C'} && t[6] in {'s', 'S', '\U{017F}'} && t[7] in {'v', 'V'}
  }

  /** Which characters `equalsIgnoreCase` matches against one character of "text/csv". */
  lemma CharMatches(target: char, c: char)
    requires target in {'t', 'e', 'x', '/', 'c', 's', 'v'}
    ensures CharEqualsIgnoreCase(target, c) <==>
      if target == '/' then c == '/'
      else if target == 's' then c in {'s', 'S', '\U{017F}'}
      else c == target || c == UpperCase(target)
  {
  }

  /** A non-empty upload passes exactly when its content type spells text/csv in some case. */
  lemma AcceptedContentTypes(file: MultipartFile)
    requires file.size > 0
    ensures ValidateFile(file) == Pass <==> file.contentType.Some? && SpellsTextCsv(file.contentType.value)
  {
    if file.contentType.Some? && |file.contentType.value| == 8 {
      var t, csv := file.contentType.value, CsvContentType;
      assert csv[0] == 't' && csv[1] == 'e' && csv[2] == 'x' && csv[3] == 't';
      assert csv[4] == '/' && csv[5] == 'c' && csv[6] == 's' && csv[7] == 'v';
      CharMatches('t', t[0]);
      CharMatches('e', t[1]);
      CharMatches('x', t[2]);
      CharMatches('t', t[3]);
      CharMatches('/', t[4]);
      CharMatches('c', t[5]);
      CharMatches('s', t[6]);
      CharMatches('v', t[7]);
      assert EqualsIgnoreCase(csv, file.contentType) <==> forall i :: 0 <= i < 8 ==> CharEqualsIgnoreCase(csv[i], t[i]);
    }
  }

  /** An empty upload is reported as empty whatever its content type. */
  lemma EmptyCheckComesFirst(contentType: Option<string>, content: ReadAll)
    ensures ValidateFile(MultipartFile(0, contentType, content)) == Fail(InvalidFileException("File is empty"))
    ensures ValidateFile(MultipartFile(0, Some("application/json"), content))
         == Fail(InvalidFileException("File is empty"))
  {
  }

  /** Parameters after the media type are not allowed; case is ignored; null is rejected. */
  lemma ContentTypeExamples(size: nat, content: ReadAll)
    requires size > 0
    ensures ValidateFile(MultipartFile(size, Some("text/csv; charset=utf-8"), content)).Fail?
    ensures ValidateFile(MultipartFile(size, Some("application/json"), content)).Fail?
    ensures ValidateFile(MultipartFile(size, Some("TEXT/CSV"), content)) == Pass
    ensures ValidateFile(MultipartFile(size, None, content))
         == Fail(InvalidFileException("Invalid file type. Only CSV files are allowed"))
  {
    AcceptedContentTypes(MultipartFile(size, Some("TEXT/CSV"), content));
  }
}
