/** The servlet-style part (`spark.PartWrapper`): a read-only projection of
    one uploaded-file record. */
module Parts {
  import opened Wrappers
  import opened Javalin

  datatype Part = Part(file: UploadedFile)

  function Wrap(file: UploadedFile): (p: Part)
    ensures SubmittedFileName(p) == file.filename
    ensures Size(p) == file.size
    ensures ContentType(p) == file.contentType
  {
    Part(file)
  }

  /** The submitted filename; absent for a plain form field. */
  function SubmittedFileName(p: Part): Option<string> {
    p.file.filename
  }

  function Size(p: Part): int {
    p.file.size
  }

  function ContentType(p: Part): Option<string> {
    p.file.contentType
  }

  /** The part's "name": the engine keeps no field name in its record, so
      this is the submitted filename again. */
  function Name(p: Part): (n: Option<string>)
    ensures n == SubmittedFileName(p)
  {
    p.file.filename
  }

  /** Wrapping loses nothing: the record is recovered from the getters. */
  lemma WrapRoundTrip(file: UploadedFile)
    ensures UploadedFile(SubmittedFileName(Wrap(file)), Size(Wrap(file)), ContentType(Wrap(file))) == file
  {
  }
}
