/** `GET /api/download`: checks the session, maps the requested type to a directory,
    and answers with the stored bytes under a content type chosen by extension. */
module DownloadRoute {
  import opened Wrappers
  import opened Text
  import opened Storage
  import opened AuthMiddleware
  import opened JsObject

  const OctetStream := "application/octet-stream"

  /** `dirMap`, read through its own entries only. */
  function DirFor(kind: string): (r: Option<string>)
    ensures r.Some? <==> kind in {"docx", "template", "enhanced", "generated"}
  {
    if kind == "docx" then Some("docx")
    else if kind == "template" then Some("templates")
    else if kind == "enhanced" then Some("enhanced")
    else if kind == "generated" then Some("generated")
    else None
  }

  /** `dirMap[type]` as written: a type naming a member every object inherits gives
      that member, which is truthy, so it is taken for a directory name. */
  function DirForAsWritten(kind: string): (r: Option<string>)
    ensures DirFor(kind).Some? ==> r == DirFor(kind)
  {
    if DirFor(kind).Some? then DirFor(kind) else Inherited(kind)
  }

  /** As written, `type=constructor` passes the type check and is looked up in a
      directory named after the text of `Object`, so the request ends in 404 `File
      not found` instead of 400 `Invalid type`. */
  lemma ConstructorTypeAccepted()
    ensures DirForAsWritten("constructor") == Some("function Object() { [native code] }")
    ensures DirFor("constructor") == None
  {
    assert |"constructor"| != |"__proto__"|;
  }

  /** `filename.split('.').pop()`: the text after the last `.`, or the whole name when
      it has no `.`. */
  function AfterLastDot(s: string): (r: string)
    ensures |r| <= |s| && r == s[|s| - |r|..]
    ensures '.' !in r
  {
    if s == [] then []
    else if s[|s| - 1] == '.' then []
    else AfterLastDot(s[..|s| - 1]) + [s[|s| - 1]]
  }

  /** What is cut off ends with the last `.`, unless the name has no `.` at all. */
  lemma {:induction false} AfterLastDotCut(s: string)
    ensures var r := AfterLastDot(s);
            (r == s <==> '.' !in s) && (r != s ==> s[|s| - |r| - 1] == '.')
  {
    if s != [] && s[|s| - 1] != '.' {
      AfterLastDotCut(s[..|s| - 1]);
      var r := AfterLastDot(s[..|s| - 1]);
      if r == s[..|s| - 1] {
        assert s == s[..|s| - 1] + [s[|s| - 1]];
      } else {
        assert s[..|s| - 1][|s| - 1 - |r| - 1] == '.';
      }
    } else if s != [] {
      assert s[|s| - 1] in s;
    }
  }

  /** The extension, lowered. Lowering ASCII letters is enough here: no other
      character lowers to a letter of the four known extensions. */
  function Extension(filename: string): string
  {
    Lower(AfterLastDot(filename))
  }

  /** `contentTypes[ext || ''] || 'application/octet-stream'`. */
  function ContentType(ext: string): (r: string)
    ensures ext !in {"docx", "json", "md", "txt"} ==> r == OctetStream
  {
    if ext == "docx" then "application/vnd.openxmlformats-officedocument.wordprocessingml.document"
    else if ext == "json" then "application/json"
    else if ext == "md" then "text/markdown"
    else if ext == "txt" then "text/plain"
    else OctetStream
  }

  lemma LowerSnoc(p: string, c: char)
    ensures Lower(p + [c]) == Lower(p) + [LowerChar(c)]
  {
  }

  lemma AfterLastDotSnoc(p: string, c: char)
    ensures AfterLastDot(p + [c]) == if c == '.' then [] else AfterLastDot(p) + [c]
  {
    assert (p + [c])[..|p|] == p;
  }

  /** Splitting at the last `.` and lowering can be done in either order, since
      lowering keeps every `.` where it is. */
  lemma {:induction false} AfterLastDotLower(s: string)
    ensures AfterLastDot(Lower(s)) == Lower(AfterLastDot(s))
  {
    if s != [] {
      var p, c := s[..|s| - 1], s[|s| - 1];
      assert s == p + [c];
      LowerSnoc(p, c);
      AfterLastDotSnoc(p, c);
      AfterLastDotSnoc(Lower(p), LowerChar(c));
      if c != '.' {
        AfterLastDotLower(p);
        LowerSnoc(AfterLastDot(p), c);
      }
    }
  }

  /** The content type does not depend on the case of the file name. */
  lemma ExtensionIgnoresCase(filename: string)
    ensures Extension(Lower(filename)) == Extension(filename)
  {
    AfterLastDotLower(filename);
    var r := AfterLastDot(filename);
    forall i | 0 <= i < |r|
      ensures LowerChar(LowerChar(r[i])) == LowerChar(r[i])
    {
      LowerCharIdempotent(r[i]);
    }
  }

  datatype Headers = Headers(contentType: string, disposition: string, contentLength: nat)

  datatype Reply =
    | FileReply(headers: Headers, body: seq<byte>)
    | Failure(status: nat, error: string)

  /** `GET(request)`: `kind` and `filename` are the query parameters, absent when not
      given; an empty one counts as missing. */
  method Get(files: BlobStore, sessions: KvStore<Session>, cookie: Option<string>, now: int, authFault: bool,
             kind: Option<string>, filename: Option<string>) returns (reply: Reply)
    modifies sessions
    ensures sessions.data == AfterCheck(old(sessions.data), cookie, now, authFault)
    ensures Judge(old(sessions.data), cookie, now) != Live ==> reply == Failure(401, "Unauthorized")
    ensures Judge(old(sessions.data), cookie, now) == Live
            && (kind.None? || kind.value == [] || filename.None? || filename.value == []) ==>
              reply == Failure(400, "Missing type or filename")
    ensures Judge(old(sessions.data), cookie, now) == Live && kind.Some? && kind.value != []
            && filename.Some? && filename.value != [] ==>
              match DirFor(kind.value)
              case None => reply == Failure(400, "Invalid type")
              case Some(dir) =>
                match files.Read(dir, filename.value)
                case None => reply == Failure(404, "File not found")
                case Some(content) =>
                  reply == FileReply(Headers(ContentType(Extension(filename.value)),
                                             "attachment; filename=\"" + filename.value + "\"",
                                             |content|),
                                     content)
  {
    var authorized := CheckAuth(sessions, cookie, now, authFault);
    if !authorized {
      return Failure(401, "Unauthorized");
    }
    if kind.None? || kind.value == [] || filename.None? || filename.value == [] {
      return Failure(400, "Missing type or filename");
    }
    var dir := DirFor(kind.value);
    if dir.None? {
      return Failure(400, "Invalid type");
    }
    var content := files.Read(dir.value, filename.value);
    if content.None? {
      return Failure(404, "File not found");
    }
    var headers := Headers(ContentType(Extension(filename.value)),
                           "attachment; filename=\"" + filename.value + "\"",
                           |content.value|);
    reply := FileReply(headers, content.value);
  }
}
