/** `POST /api/upload`: checks the session, picks the directory a file belongs in from
    the form's `type` field and the file's name, and stores the bytes unchanged. */
module UploadRoute {
  import opened Wrappers
  import opened Text
  import opened Storage
  import opened AuthMiddleware

  /** An uploaded file: its name and its bytes. */
  datatype Upload = Upload(name: string, content: seq<byte>)

  /** The multipart form: the `file` entry and the `type` entry, either possibly absent. */
  datatype Form = Form(file: Option<Upload>, kind: Option<string>)

  datatype Body = Uploaded(filename: string, storage: string) | Failure(error: string)

  datatype Reply = Reply(status: nat, body: Body)

  /** The directory for a file, or the refusal: a `docx` type or a `.docx` name means
      the DOCX directory and then demands the `.docx` name; otherwise a `template`
      type or a `.json` name means the template directory and demands the `.json`
      name. */
  function Directory(name: string, kind: Option<string>): Result<string, string>
  {
    if kind == Some("docx") || EndsWith(name, ".docx") then
      if !EndsWith(name, ".docx") then Err("Only DOCX files allowed") else Ok("docx")
    else if kind == Some("template") || EndsWith(name, ".json") then
      if !EndsWith(name, ".json") then Err("Only JSON files allowed") else Ok("templates")
    else Err("Invalid file type")
  }

  /** Every outcome of the classification, stated in terms of the name's extension and
      the declared type. A `.docx` name goes to the DOCX directory whatever type was
      declared. */
  lemma DirectoryCases(name: string, kind: Option<string>)
    ensures Directory(name, kind) == Ok("docx") <==> EndsWith(name, ".docx")
    ensures Directory(name, kind) == Ok("templates")
            <==> !EndsWith(name, ".docx") && kind != Some("docx") && EndsWith(name, ".json")
    ensures Directory(name, kind) == Err("Only DOCX files allowed")
            <==> kind == Some("docx") && !EndsWith(name, ".docx")
    ensures Directory(name, kind) == Err("Only JSON files allowed")
            <==> kind == Some("template") && !EndsWith(name, ".docx") && !EndsWith(name, ".json")
    ensures Directory(name, kind) == Err("Invalid file type")
            <==> kind != Some("docx") && kind != Some("template")
                 && !EndsWith(name, ".docx") && !EndsWith(name, ".json")
  {
  }

  /** A name cannot end with both extensions, so a `.json` name never lands in the
      DOCX directory and the two accepted directories never hold the same name. */
  lemma ExtensionsExclusive(name: string)
    ensures !(EndsWith(name, ".docx") && EndsWith(name, ".json"))
  {
  }

  /** `POST(request)`. `form` is `Err` with the error's message when the body cannot
      be read as a form; `fault` makes the blob write fail. */
  method Post(files: BlobStore, sessions: KvStore<Session>, cookie: Option<string>, now: int, authFault: bool,
              form: Result<Form, string>, fault: bool) returns (reply: Reply)
    modifies files, sessions
    ensures sessions.data == AfterCheck(old(sessions.data), cookie, now, authFault)
    ensures Judge(old(sessions.data), cookie, now) == Live && form.Err? ==>
              reply == Reply(500, Failure(if form.error != [] then form.error else "Upload failed"))
    ensures Judge(old(sessions.data), cookie, now) != Live ==>
              reply == Reply(401, Failure("Unauthorized")) && files.files == old(files.files)
    ensures Judge(old(sessions.data), cookie, now) == Live && form.Ok? && form.value.file.Some?
            && Directory(form.value.file.value.name, form.value.kind).Ok? && !fault ==>
              var f := form.value.file.value;
              reply == Reply(200, Uploaded(f.name, "vercel-blob"))
              && files.files == old(files.files)[(Directory(f.name, form.value.kind).value, f.name) := f.content]
    ensures Judge(old(sessions.data), cookie, now) == Live && form.Ok? && form.value.file.None? ==>
              reply == Reply(400, Failure("No file uploaded"))
    ensures Judge(old(sessions.data), cookie, now) == Live && form.Ok? && form.value.file.Some?
            && Directory(form.value.file.value.name, form.value.kind).Err? ==>
              reply == Reply(400, Failure(Directory(form.value.file.value.name, form.value.kind).error))
    ensures Judge(old(sessions.data), cookie, now) == Live && form.Ok? && form.value.file.Some?
            && Directory(form.value.file.value.name, form.value.kind).Ok? && fault ==>
              reply == Reply(500, Failure("Upload failed"))
    ensures reply.status != 200 ==> files.files == old(files.files)
  {
    var authorized := CheckAuth(sessions, cookie, now, authFault);
    if !authorized {
      return Reply(401, Failure("Unauthorized"));
    }
    if form.Err? {
      return Reply(500, Failure(if form.error != [] then form.error else "Upload failed"));
    }
    if form.value.file.None? {
      return Reply(400, Failure("No file uploaded"));
    }
    var file := form.value.file.value;
    var dir := Directory(file.name, form.value.kind);
    if dir.Err? {
      return Reply(400, Failure(dir.error));
    }
    var ok := files.Write(dir.value, file.name, file.content, fault);
    if !ok {
      return Reply(500, Failure("Upload failed"));
    }
    reply := Reply(200, Uploaded(file.name, "vercel-blob"));
  }
}
