/** `POST /api/process`: converts stored DOCX files to Markdown, has the text rewritten
    by the chosen AI service, parses the rewritten text into template variables, fills
    a stored JSON template with them and stores the result. The converter's libraries,
    the AI SDKs and `JSON.parse` are parameters (`Services`); which blob writes fail is
    chosen by `fails`. */
module ProcessRoute {
  import opened Wrappers
  import opened Text
  import opened Json
  import opened Storage
  import opened Utf8
  import opened DocxConverter
  import opened AiService
  import opened TemplateProcessor
  import opened AuthMiddleware

  /** The code the route calls but that is not part of the model. `parseJson` stands
      for `JSON.parse(buffer.toString('utf-8'))`, `Err` carrying the error's message. */
  datatype Services = Services(
    toHtml: seq<byte> -> Result<string, string>,
    turndown: string -> Result<string, string>,
    gemini: (string, GeminiRequest) -> Result<string, string>,
    openai: (string, ChatRequest) -> Result<Option<string>, string>,
    parseJson: seq<byte> -> Result<Json, string>)

  /** The parsed request body. A missing file name is `""`; `files` is `None` when it
      is missing or not an array; `model` is `None` when it is not given. */
  datatype Request = Request(
    action: Option<string>,
    docxFilename: string,
    templateFilename: string,
    files: Option<seq<string>>,
    service: string,
    model: Option<string>,
    prompt: string,
    keepEnhanced: bool)

  /** One entry of a chunk's `results`. */
  datatype FileResult = FileResult(filename: string, status: string, message: string,
                                   enhancedPath: string, jsonPath: string)

  datatype Body =
    | Failure(error: string)
    | Single(enhancedPath: string, jsonPath: string, variables: VarMap, markdown: string,
             enhanced: string, storage: string)
    | Chunk(results: seq<FileResult>)

  datatype Reply = Reply(status: nat, body: Body)

  // ---------------------------------------------------------------------------
  // `path.parse(filename).name` (POSIX)

  /** The position of the last `c` in `s`. */
  function LastIndex(s: string, c: char): (r: Option<nat>)
    ensures r.Some? ==> r.value < |s|
  {
    if s == [] then None
    else if s[|s| - 1] == c then Some(|s| - 1)
    else LastIndex(s[..|s| - 1], c)
  }

  /** The index found holds `c` and no `c` comes after it; nothing is found only when
      `s` holds no `c`. */
  lemma {:induction false} LastIndexFinds(s: string, c: char)
    ensures var r := LastIndex(s, c);
            (r.Some? ==> s[r.value] == c && c !in s[r.value + 1..])
            && (r.None? ==> c !in s)
    decreases |s|
  {
    if s != [] && s[|s| - 1] != c {
      var init := s[..|s| - 1];
      LastIndexFinds(init, c);
      assert s == init + [s[|s| - 1]];
      match LastIndex(init, c)
      case None =>
      case Some(i) => assert s[i + 1..] == init[i + 1..] + [s[|s| - 1]];
    }
  }

  /** The path without its trailing separators. */
  function StripSlashes(p: string): (r: string)
    ensures |r| <= |p|
  {
    if p != [] && p[|p| - 1] == '/' then StripSlashes(p[..|p| - 1]) else p
  }

  /** Only separators are cut, all of them from the end: the result is a prefix of the
      path, what follows it is all '/', and it does not itself end in one. */
  lemma {:induction false} StripSlashesShape(p: string)
    ensures var r := StripSlashes(p);
            r == p[..|r|]
            && (forall i :: |r| <= i < |p| ==> p[i] == '/')
            && (r == [] || r[|r| - 1] != '/')
    decreases |p|
  {
    if p != [] && p[|p| - 1] == '/' {
      StripSlashesShape(p[..|p| - 1]);
    }
  }

  /** The last component of the path: what follows the last separator once trailing
      separators are dropped, or the whole of it when it holds none. */
  function BaseName(p: string): (r: string)
  {
    var q := StripSlashes(p);
    match LastIndex(q, '/')
    case None => q
    case Some(i) => q[i + 1..]
  }

  /** The base name is a suffix of the slash-stripped path that holds no separator and
      starts right after one, unless it is the whole of that path. */
  lemma BaseNameShape(p: string)
    ensures var q, r := StripSlashes(p), BaseName(p);
            |r| <= |q| && r == q[|q| - |r|..]
            && (|r| < |q| ==> q[|q| - |r| - 1] == '/')
            && '/' !in r
  {
    var q := StripSlashes(p);
    LastIndexFinds(q, '/');
    match LastIndex(q, '/')
    case None =>
      assert BaseName(p) == q;
    case Some(i) =>
      assert BaseName(p) == q[i + 1..];
      assert |q| - |q[i + 1..]| - 1 == i;
  }

  /** The last component without its extension: the text before its last `.`, unless
      that `.` is the component's first character or the component is `..`. Node's
      posix `path.parse` does not see the `..` directly under the root as such: it
      compares the dot's position with a component start it leaves at 0 for an
      absolute path, so `/..` (trailing separators aside) is split as `.` and `.`. */
  function Stem(p: string): (r: string)
  {
    var b := BaseName(p);
    match LastIndex(b, '.')
    case None => b
    case Some(d) => if d == 0 || (b == ".." && StripSlashes(p) != "/..") then b else b[..d]
  }

  /** `..` keeps its name as a last component. */
  lemma DotDotStem()
    ensures Stem("..") == ".." && Stem("a/..") == ".." && Stem("a/../") == ".."
  {
    assert StripSlashes("a/..") == "a/..";
    assert StripSlashes("a/../") == "a/..";
    assert LastIndex("a/..", '/') == Some(1);
    assert LastIndex("..", '.') == Some(1);
  }

  /** Directly under the root, `..` is split into the stem `.` and the extension `.`. */
  lemma RootDotDotStem()
    ensures Stem("/..") == "." && Stem("/../") == "."
  {
    assert StripSlashes("/..") == "/..";
    assert StripSlashes("/../") == "/..";
    assert LastIndex("/..", '/') == Some(0);
    assert LastIndex("..", '.') == Some(1);
  }

  /** The stem holds no separator, so the names built from it stay in their directory. */
  lemma StemHasNoSeparator(p: string)
    ensures '/' !in Stem(p)
  {
    BaseNameShape(p);
    var b := BaseName(p);
    match LastIndex(b, '.')
    case None =>
    case Some(d) =>
      PrefixKeepsOut(b, d, '/');
  }

  lemma PrefixKeepsOut(b: string, d: nat, c: char)
    requires d <= |b| && c !in b
    ensures c !in b[..d]
  {
    assert forall x :: x in b[..d] ==> x in b;
  }

  /** Appending an extension to a plain file name and taking the stem gives the name
      back: a DOCX uploaded as `N.docx` yields `N_enhanced.md` and `N.json`. */
  lemma StemOfExtension(name: string, ext: string)
    requires name != [] && '/' !in name
    requires ext != [] && '.' !in ext && '/' !in ext
    ensures Stem(name + "." + ext) == name
  {
    var p := name + "." + ext;
    assert p[|p| - 1] == ext[|ext| - 1];
    assert StripSlashes(p) == p;
    assert forall i :: 0 <= i < |p| ==> p[i] != '/' by {
      forall i | 0 <= i < |p|
        ensures p[i] != '/'
      {
        if i < |name| {
          assert p[i] == name[i];
        } else if i > |name| {
          assert p[i] == ext[i - |name| - 1];
        }
      }
    }
    LastIndexFinds(p, '/');
    assert LastIndex(p, '/') == None;
    assert BaseName(p) == p;
    var d := LastIndex(p, '.');
    assert p[|name|] == '.';
    LastIndexFinds(p, '.');
    assert d.Some? && d.value == |name|;
    assert p != "..";
    assert p[..|name|] == name;
  }

  /** Where the outputs for a DOCX file are stored. */
  function EnhancedName(stem: string): string
  {
    stem + "_enhanced.md"
  }

  function JsonName(stem: string): string
  {
    stem + ".json"
  }

  // ---------------------------------------------------------------------------
  // The blob store as the route sees it

  /** A write the route asks for. */
  datatype FileWrite = FileWrite(dir: string, name: string, content: seq<byte>)

  /** `readFile(dir, name)` on a snapshot of the store. */
  function FileIn(files: map<(string, string), seq<byte>>, dir: string, name: string): (r: Option<seq<byte>>)
    ensures r.Some? <==> (dir, name) in files
    ensures r.Some? ==> r.value == files[(dir, name)]
  {
    if (dir, name) in files then Some(files[(dir, name)]) else None
  }

  /** One `writeFile`; a write `fails` picks changes nothing and is not reported. */
  function Put(files: map<(string, string), seq<byte>>, w: FileWrite, fails: (string, string) -> bool)
    : map<(string, string), seq<byte>>
  {
    if fails(w.dir, w.name) then files else files[(w.dir, w.name) := w.content]
  }

  /** The writes in order. */
  function ApplyAll(files: map<(string, string), seq<byte>>, ws: seq<FileWrite>, fails: (string, string) -> bool)
    : map<(string, string), seq<byte>>
    decreases |ws|
  {
    if ws == [] then files else ApplyAll(Put(files, ws[0], fails), ws[1..], fails)
  }

  /** Writing two lists of files in turn is writing their concatenation. */
  lemma {:induction false} ApplyAppend(files: map<(string, string), seq<byte>>, a: seq<FileWrite>, b: seq<FileWrite>,
                                       fails: (string, string) -> bool)
    ensures ApplyAll(files, a + b, fails) == ApplyAll(ApplyAll(files, a, fails), b, fails)
    decreases |a|
  {
    if a != [] {
      assert (a + b)[0] == a[0];
      assert (a + b)[1..] == a[1..] + b;
      ApplyAppend(Put(files, a[0], fails), a[1..], b, fails);
    } else {
      assert a + b == b;
    }
  }

  /** Writing one file is one `Put`. */
  lemma ApplyOne(files: map<(string, string), seq<byte>>, w: FileWrite, fails: (string, string) -> bool)
    ensures ApplyAll(files, [w], fails) == Put(files, w, fails)
  {
    assert [w][1..] == [];
  }

  /** Writes into other directories leave a directory's files as they were. */
  lemma {:induction false} ApplyElsewhere(files: map<(string, string), seq<byte>>, ws: seq<FileWrite>,
                                          fails: (string, string) -> bool, dir: string, name: string)
    requires forall i :: 0 <= i < |ws| ==> ws[i].dir != dir
    ensures FileIn(ApplyAll(files, ws, fails), dir, name) == FileIn(files, dir, name)
    decreases |ws|
  {
    if ws != [] {
      ApplyElsewhere(Put(files, ws[0], fails), ws[1..], fails, dir, name);
    }
  }

  // ---------------------------------------------------------------------------
  // One DOCX file

  /** `Storage.getAsync('<service>_api_key', '')`. */
  function ApiKey(settings: KvStore<string>, service: string): string
    reads settings
  {
    match settings.Get(service + "_api_key")
    case None => ""
    case Some(key) => key
  }

  /** The conversion and the rewrite of one file's bytes: the Markdown and the
      enhanced text, or the message of the first failure. */
  function Convert(docx: seq<byte>, req: Request, apiKey: string, svc: Services): (r: Result<(string, string), string>)
    ensures r.Err? ==> StartsWith(r.error, ConvertError) || StartsWith(r.error, GeminiError)
                       || StartsWith(r.error, OpenAIError) || r.error == InvalidService
  {
    match ToMarkdown(docx, svc.toHtml, svc.turndown)
    case Err(e) => Err(e)
    case Ok(markdown) =>
      EnhanceErrors(markdown, req.prompt, req.service, apiKey, req.model, svc.gemini, svc.openai);
      match Enhance(markdown, req.prompt, req.service, apiKey, req.model, svc.gemini, svc.openai)
      case Err(e) => Err(e)
      case Ok(enhanced) => Ok((markdown, enhanced))
  }

  /** `error.message || 'Processing failed'`. */
  function Reason(e: string): (r: string)
    ensures r != []
  {
    if e == [] then "Processing failed" else e
  }

  /** The record the loop pushes for one file, given the file's bytes if stored. */
  function ItemResult(docx: Option<seq<byte>>, filename: string, req: Request, apiKey: string, svc: Services)
    : (r: FileResult)
    ensures r.filename == filename
    ensures r.status == "success" || r.status == "failed"
    ensures r.status == "success" <==> docx.Some? && Convert(docx.value, req, apiKey, svc).Ok?
    ensures r.status == "success" ==>
              r.message == "Successfully processed" && r.jsonPath == JsonName(Stem(filename))
              && r.enhancedPath == (if req.keepEnhanced then EnhancedName(Stem(filename)) else "")
    ensures r.status == "failed" ==> r.message != [] && r.enhancedPath == "" && r.jsonPath == ""
    ensures docx.None? ==> r.message == "File not found"
  {
    var failed := FileResult(filename, "failed", "", "", "");
    match docx
    case None => failed.(message := Reason("File not found"))
    case Some(bytes) =>
      match Convert(bytes, req, apiKey, svc)
      case Err(e) => failed.(message := Reason(e))
      case Ok(_) =>
        var stem := Stem(filename);
        FileResult(filename, "success", "Successfully processed",
                   if req.keepEnhanced then EnhancedName(stem) else "", JsonName(stem))
  }

  /** The enhanced text's write, when it is kept. */
  function EnhancedWrites(stem: string, enhanced: string, keep: bool): seq<FileWrite>
  {
    if keep then [FileWrite("enhanced", EnhancedName(stem), Encode(enhanced))] else []
  }

  /** The writes the loop asks for for one file. */
  function ItemWrites(docx: Option<seq<byte>>, filename: string, template: Json, req: Request, apiKey: string,
                      svc: Services): seq<FileWrite>
  {
    match docx
    case None => []
    case Some(bytes) =>
      match Convert(bytes, req, apiKey, svc)
      case Err(_) => []
      case Ok(texts) =>
        var stem := Stem(filename);
        EnhancedWrites(stem, texts.1, req.keepEnhanced)
        + [FileWrite("generated", JsonName(stem), Encode(ProcessTemplate(template, Variables(texts.1, stem))))]
  }

  /** The record names exactly the files written for it: nothing for a failure; for a
      success the generated JSON under `json_path`, holding the filled template, and
      the enhanced text under `enhanced_path` just when one is named. */
  lemma ResultMatchesWrites(docx: Option<seq<byte>>, filename: string, template: Json, req: Request,
                            apiKey: string, svc: Services)
    ensures var r := ItemResult(docx, filename, req, apiKey, svc);
            var ws := ItemWrites(docx, filename, template, req, apiKey, svc);
            (r.status == "failed" <==> ws == [])
            && (r.status == "success" ==>
                  var enhanced := Convert(docx.value, req, apiKey, svc).value.1;
                  ws[|ws| - 1] == FileWrite("generated", r.jsonPath,
                                            Encode(ProcessTemplate(template, Variables(enhanced, Stem(filename)))))
                  && (r.enhancedPath != "" <==> |ws| == 2)
                  && (r.enhancedPath != "" ==> ws[0] == FileWrite("enhanced", r.enhancedPath, Encode(enhanced))))
  {
  }

  /** What is stored as the generated JSON reads back, as UTF-8, as the filled template. */
  lemma GeneratedReadsBack(template: Json, enhanced: string, stem: string)
    ensures Decode(Encode(ProcessTemplate(template, Variables(enhanced, stem))))
            == Some(ProcessTemplate(template, Variables(enhanced, stem)))
  {
    DecodeEncode(ProcessTemplate(template, Variables(enhanced, stem)));
  }

  /** The writes for one file go to the output directories only. */
  lemma ItemWritesOutputs(docx: Option<seq<byte>>, filename: string, template: Json, req: Request,
                          apiKey: string, svc: Services)
    ensures var ws := ItemWrites(docx, filename, template, req, apiKey, svc);
            forall i :: 0 <= i < |ws| ==> ws[i].dir == "enhanced" || ws[i].dir == "generated"
  {
  }

  /** One turn of the `for` loop: the record starts out failed, and each step that
      succeeds fills in more of it. */
  method ProcessFile(store: BlobStore, filename: string, template: Json, req: Request, apiKey: string,
                     svc: Services, fails: (string, string) -> bool) returns (result: FileResult)
    modifies store
    ensures result == ItemResult(FileIn(old(store.files), "docx", filename), filename, req, apiKey, svc)
    ensures store.files == ApplyAll(old(store.files),
                                    ItemWrites(FileIn(old(store.files), "docx", filename), filename, template,
                                               req, apiKey, svc),
                                    fails)
  {
    result := FileResult(filename, "failed", "", "", "");
    var docx := store.Read("docx", filename);
    if docx.None? {
      result := result.(message := Reason("File not found"));
      return;
    }
    var markdown := ToMarkdown(docx.value, svc.toHtml, svc.turndown);
    if markdown.Err? {
      assert Convert(docx.value, req, apiKey, svc) == Err(markdown.error);
      result := result.(message := Reason(markdown.error));
      return;
    }
    var enhanced := Enhance(markdown.value, req.prompt, req.service, apiKey, req.model, svc.gemini, svc.openai);
    if enhanced.Err? {
      assert Convert(docx.value, req, apiKey, svc) == Err(enhanced.error);
      result := result.(message := Reason(enhanced.error));
      return;
    }
    assert Convert(docx.value, req, apiKey, svc) == Ok((markdown.value, enhanced.value));
    ghost var before := store.files;
    var stem := Stem(filename);
    if req.keepEnhanced {
      var _ := store.Write("enhanced", EnhancedName(stem), Encode(enhanced.value), fails("enhanced", EnhancedName(stem)));
      result := result.(enhancedPath := EnhancedName(stem));
    }
    ghost var kept := EnhancedWrites(stem, enhanced.value, req.keepEnhanced);
    if req.keepEnhanced {
      ApplyOne(before, kept[0], fails);
    }
    assert store.files == ApplyAll(before, kept, fails);
    var variables := ParseVariables(enhanced.value, stem);
    var generated := ProcessTemplate(template, variables);
    ghost var mid := store.files;
    var _ := store.Write("generated", JsonName(stem), Encode(generated), fails("generated", JsonName(stem)));
    result := result.(jsonPath := JsonName(stem));
    result := result.(status := "success", message := "Successfully processed");
    ghost var last := FileWrite("generated", JsonName(stem), Encode(generated));
    ApplyOne(mid, last, fails);
    ApplyAppend(before, kept, [last], fails);
    SingleMatchesChunk(docx.value, filename, template, req, apiKey, svc);
  }

  /** The writes of a whole chunk, file after file. */
  function ChunkWrites(docs: map<(string, string), seq<byte>>, files: seq<string>, template: Json, req: Request,
                       apiKey: string, svc: Services): (ws: seq<FileWrite>)
    ensures forall i :: 0 <= i < |ws| ==> ws[i].dir == "enhanced" || ws[i].dir == "generated"
    decreases |files|
  {
    if files == [] then []
    else
      var last := files[|files| - 1];
      var ws := ItemWrites(FileIn(docs, "docx", last), last, template, req, apiKey, svc);
      ItemWritesOutputs(FileIn(docs, "docx", last), last, template, req, apiKey, svc);
      ChunkWrites(docs, files[..|files| - 1], template, req, apiKey, svc) + ws
  }

  /** The records of the first `|results|` files. */
  ghost predicate RecordsFor(results: seq<FileResult>, docs: map<(string, string), seq<byte>>, files: seq<string>,
                             req: Request, apiKey: string, svc: Services)
  {
    |results| <= |files|
    && forall k :: 0 <= k < |results| ==>
         results[k] == ItemResult(FileIn(docs, "docx", files[k]), files[k], req, apiKey, svc)
  }

  lemma RecordsStep(results: seq<FileResult>, docs: map<(string, string), seq<byte>>, files: seq<string>,
                    req: Request, apiKey: string, svc: Services, r: FileResult)
    requires RecordsFor(results, docs, files, req, apiKey, svc) && |results| < |files|
    requires r == ItemResult(FileIn(docs, "docx", files[|results|]), files[|results|], req, apiKey, svc)
    ensures RecordsFor(results + [r], docs, files, req, apiKey, svc)
  {
  }

  lemma ChunkWritesStep(docs: map<(string, string), seq<byte>>, files: seq<string>, i: nat, template: Json,
                        req: Request, apiKey: string, svc: Services)
    requires i < |files|
    ensures ChunkWrites(docs, files[..i + 1], template, req, apiKey, svc)
            == ChunkWrites(docs, files[..i], template, req, apiKey, svc)
               + ItemWrites(FileIn(docs, "docx", files[i]), files[i], template, req, apiKey, svc)
  {
    assert files[..i + 1][..i] == files[..i];
  }

  /** The `for (const filename of files)` loop: one record per file, in order, each
      decided by that file alone, with the writes of every file in turn; a failed
      write changes no record. */
  method RunChunk(store: BlobStore, files: seq<string>, template: Json, req: Request, apiKey: string,
                  svc: Services, fails: (string, string) -> bool) returns (results: seq<FileResult>)
    modifies store
    ensures |results| == |files|
    ensures forall k :: 0 <= k < |files| ==>
              results[k] == ItemResult(FileIn(old(store.files), "docx", files[k]), files[k], req, apiKey, svc)
    ensures store.files == ApplyAll(old(store.files), ChunkWrites(old(store.files), files, template, req, apiKey, svc),
                                    fails)
  {
    ghost var docs := store.files;
    results := [];
    var i := 0;
    while i < |files|
      invariant i == |results| <= |files|
      invariant RecordsFor(results, docs, files, req, apiKey, svc)
      invariant store.files == ApplyAll(docs, ChunkWrites(docs, files[..i], template, req, apiKey, svc), fails)
    {
      ghost var done := ChunkWrites(docs, files[..i], template, req, apiKey, svc);
      ApplyElsewhere(docs, done, fails, "docx", files[i]);
      var r := ProcessFile(store, files[i], template, req, apiKey, svc, fails);
      ApplyAppend(docs, done, ItemWrites(FileIn(docs, "docx", files[i]), files[i], template, req, apiKey, svc), fails);
      ChunkWritesStep(docs, files, i, template, req, apiKey, svc);
      RecordsStep(results, docs, files, req, apiKey, svc, r);
      results := results + [r];
      i := i + 1;
    }
    assert files[..i] == files;
  }

  // ---------------------------------------------------------------------------
  // The actions

  /** What the outer `catch` answers: `error.message || 'Server error'`. */
  function ServerError(e: string): (r: string)
    ensures r != []
  {
    if e == [] then "Server error" else e
  }

  /** What an action answers and what the blob store then holds. */
  datatype Outcome = Outcome(reply: Reply, files: map<(string, string), seq<byte>>)

  /** The records of a chunk, one per file, each decided by that file alone. */
  function ChunkResults(docs: map<(string, string), seq<byte>>, files: seq<string>, req: Request, apiKey: string,
                        svc: Services): (r: seq<FileResult>)
    ensures |r| == |files|
    ensures forall k :: 0 <= k < |files| ==> r[k] == ItemResult(FileIn(docs, "docx", files[k]), files[k], req, apiKey, svc)
  {
    seq(|files|, k requires 0 <= k < |files| => ItemResult(FileIn(docs, "docx", files[k]), files[k], req, apiKey, svc))
  }

  /** `processBatchChunk` on a store holding `files`, with `apiKey` the stored key. */
  function ChunkOutcome(files: map<(string, string), seq<byte>>, apiKey: string, req: Request, svc: Services,
                        fails: (string, string) -> bool): Outcome
  {
    if req.files.None? || req.files.value == [] then Outcome(Reply(400, Failure("No files to process")), files)
    else if apiKey == [] then Outcome(Reply(400, Failure(req.service + " API key not configured")), files)
    else
      match FileIn(files, "templates", req.templateFilename)
      case None => Outcome(Reply(404, Failure("Template file not found")), files)
      case Some(bytes) =>
        match svc.parseJson(bytes)
        case Err(e) => Outcome(Reply(500, Failure(ServerError(e))), files)
        case Ok(template) =>
          Outcome(Reply(200, Chunk(ChunkResults(files, req.files.value, req, apiKey, svc))),
                  ApplyAll(files, ChunkWrites(files, req.files.value, template, req, apiKey, svc), fails))
  }

  /** The rest of `processSingle` once the text is converted and rewritten (`texts`
      holds the Markdown and the enhanced text): the enhanced text is stored when
      kept, then the template is read, filled and stored. */
  function FillOutcome(files: map<(string, string), seq<byte>>, req: Request, texts: (string, string),
                       svc: Services, fails: (string, string) -> bool): Outcome
  {
    var stem := Stem(req.docxFilename);
    var kept := ApplyAll(files, EnhancedWrites(stem, texts.1, req.keepEnhanced), fails);
    match FileIn(files, "templates", req.templateFilename)
    case None => Outcome(Reply(404, Failure("Template file not found")), kept)
    case Some(bytes) =>
      match svc.parseJson(bytes)
      case Err(e) => Outcome(Reply(500, Failure(e)), kept)
      case Ok(template) =>
        var variables := Variables(texts.1, stem);
        Outcome(Reply(200, Single(if req.keepEnhanced then EnhancedName(stem) else "", JsonName(stem),
                                  variables, texts.0, texts.1, "vercel-blob")),
                Put(kept, FileWrite("generated", JsonName(stem), Encode(ProcessTemplate(template, variables))), fails))
  }

  /** `processSingle` on a store holding `files`, with `apiKey` the stored key. */
  function SingleOutcome(files: map<(string, string), seq<byte>>, apiKey: string, req: Request, svc: Services,
                         fails: (string, string) -> bool): Outcome
  {
    if req.docxFilename == [] || req.templateFilename == [] then
      Outcome(Reply(400, Failure("Missing required fields")), files)
    else if apiKey == [] then Outcome(Reply(400, Failure(req.service + " API key not configured")), files)
    else
      match FileIn(files, "docx", req.docxFilename)
      case None => Outcome(Reply(404, Failure("DOCX file not found")), files)
      case Some(docx) =>
        match Convert(docx, req, apiKey, svc)
        case Err(e) => Outcome(Reply(500, Failure(e)), files)
        case Ok(texts) => FillOutcome(files, req, texts, svc, fails)
  }


  /** A chunk leaves every file outside `enhanced/` and `generated/` as it was, and
      answers 200 exactly when it has files, a key, and a stored template that parses;
      the 200 reply holds one record per file. */
  lemma ChunkOutcomeShape(files: map<(string, string), seq<byte>>, apiKey: string, req: Request, svc: Services,
                          fails: (string, string) -> bool, dir: string, name: string)
    requires dir != "enhanced" && dir != "generated"
    ensures var o := ChunkOutcome(files, apiKey, req, svc, fails);
            FileIn(o.files, dir, name) == FileIn(files, dir, name)
            && (o.reply.status == 200 <==>
                  req.files.Some? && req.files.value != [] && apiKey != []
                  && ("templates", req.templateFilename) in files
                  && svc.parseJson(files[("templates", req.templateFilename)]).Ok?)
            && (o.reply.status == 200 ==> o.reply.body.Chunk? && |o.reply.body.results| == |req.files.value|)
  {
    if req.files.Some? && req.files.value != [] && apiKey != [] && ("templates", req.templateFilename) in files {
      match svc.parseJson(files[("templates", req.templateFilename)])
      case Err(_) =>
      case Ok(template) =>
        ApplyElsewhere(files, ChunkWrites(files, req.files.value, template, req, apiKey, svc), fails, dir, name);
    }
  }

  /** The stage after the rewrite writes only under `enhanced/` and `generated/`. */
  lemma FillKeepsInputs(files: map<(string, string), seq<byte>>, req: Request, texts: (string, string),
                        svc: Services, fails: (string, string) -> bool, dir: string, name: string)
    requires dir != "enhanced" && dir != "generated"
    ensures FileIn(FillOutcome(files, req, texts, svc, fails).files, dir, name) == FileIn(files, dir, name)
  {
    var stem := Stem(req.docxFilename);
    var ws := EnhancedWrites(stem, texts.1, req.keepEnhanced);
    ApplyElsewhere(files, ws, fails, dir, name);
  }

  /** A single run leaves every file outside `enhanced/` and `generated/` as it was. */
  lemma SingleKeepsInputs(files: map<(string, string), seq<byte>>, apiKey: string, req: Request, svc: Services,
                          fails: (string, string) -> bool, dir: string, name: string)
    requires dir != "enhanced" && dir != "generated"
    ensures FileIn(SingleOutcome(files, apiKey, req, svc, fails).files, dir, name) == FileIn(files, dir, name)
  {
    if req.docxFilename != [] && req.templateFilename != [] && apiKey != [] && ("docx", req.docxFilename) in files {
      var converted := Convert(files[("docx", req.docxFilename)], req, apiKey, svc);
      if converted.Ok? {
        FillKeepsInputs(files, req, converted.value, svc, fails, dir, name);
      }
    }
  }

  /** A successful single run has stored, unless that write failed, the template
      filled with exactly the variables it answers, and, when it names one, the
      enhanced text it answers; both read back as UTF-8. */
  lemma SingleStoresReply(files: map<(string, string), seq<byte>>, apiKey: string, req: Request, svc: Services,
                          fails: (string, string) -> bool)
    ensures var o := SingleOutcome(files, apiKey, req, svc, fails);
            o.reply.status == 200 ==>
              o.reply.body.Single? && ("templates", req.templateFilename) in files
              && svc.parseJson(files[("templates", req.templateFilename)]).Ok?
              && (!fails("generated", o.reply.body.jsonPath) ==>
                    FileIn(o.files, "generated", o.reply.body.jsonPath).Some?
                    && Decode(FileIn(o.files, "generated", o.reply.body.jsonPath).value)
                       == Some(ProcessTemplate(svc.parseJson(files[("templates", req.templateFilename)]).value,
                                               o.reply.body.variables)))
              && (o.reply.body.enhancedPath != [] && !fails("enhanced", o.reply.body.enhancedPath) ==>
                    FileIn(o.files, "enhanced", o.reply.body.enhancedPath).Some?
                    && Decode(FileIn(o.files, "enhanced", o.reply.body.enhancedPath).value)
                       == Some(o.reply.body.enhanced))
  {
    var o := SingleOutcome(files, apiKey, req, svc, fails);
    if req.docxFilename != [] && req.templateFilename != [] && apiKey != [] && ("docx", req.docxFilename) in files {
      var converted := Convert(files[("docx", req.docxFilename)], req, apiKey, svc);
      if converted.Ok? && ("templates", req.templateFilename) in files {
        var parsed := svc.parseJson(files[("templates", req.templateFilename)]);
        if parsed.Ok? {
          var texts, template := converted.value, parsed.value;
          var stem := Stem(req.docxFilename);
          var variables := Variables(texts.1, stem);
          var generated := FileWrite("generated", JsonName(stem), Encode(ProcessTemplate(template, variables)));
          var kept := ApplyAll(files, EnhancedWrites(stem, texts.1, req.keepEnhanced), fails);
          if req.keepEnhanced {
            ApplyOne(files, FileWrite("enhanced", EnhancedName(stem), Encode(texts.1)), fails);
          }
          assert o.reply.body == Single(if req.keepEnhanced then EnhancedName(stem) else "", JsonName(stem),
                                        variables, texts.0, texts.1, "vercel-blob");
          assert o.files == Put(kept, generated, fails);
          DecodeEncode(ProcessTemplate(template, variables));
          DecodeEncode(texts.1);
        }
      }
    }
  }

  /** `processBatchChunk(data)`. */
  method ProcessBatchChunk(store: BlobStore, settings: KvStore<string>, req: Request, svc: Services,
                           fails: (string, string) -> bool) returns (reply: Reply)
    modifies store
    ensures Outcome(reply, store.files) == ChunkOutcome(old(store.files), ApiKey(settings, req.service), req, svc, fails)
    ensures !reply.body.Single?
    ensures req.files.None? || req.files.value == [] ==>
              reply == Reply(400, Failure("No files to process")) && store.files == old(store.files)
    ensures req.files.Some? && req.files.value != [] && ApiKey(settings, req.service) == [] ==>
              reply == Reply(400, Failure(req.service + " API key not configured"))
              && store.files == old(store.files)
    ensures req.files.Some? && req.files.value != [] && ApiKey(settings, req.service) != [] ==>
              var files, key := req.files.value, ApiKey(settings, req.service);
              match FileIn(old(store.files), "templates", req.templateFilename)
              case None => reply == Reply(404, Failure("Template file not found")) && store.files == old(store.files)
              case Some(bytes) =>
                match svc.parseJson(bytes)
                case Err(e) => reply == Reply(500, Failure(ServerError(e))) && store.files == old(store.files)
                case Ok(template) =>
                  reply.status == 200 && reply.body.Chunk? && |reply.body.results| == |files|
                  && (forall k :: 0 <= k < |files| ==>
                        reply.body.results[k] == ItemResult(FileIn(old(store.files), "docx", files[k]), files[k],
                                                            req, key, svc))
                  && store.files == ApplyAll(old(store.files),
                                             ChunkWrites(old(store.files), files, template, req, key, svc), fails)
  {
    if req.files.None? || req.files.value == [] {
      return Reply(400, Failure("No files to process"));
    }
    var apiKey := ApiKey(settings, req.service);
    if apiKey == [] {
      return Reply(400, Failure(req.service + " API key not configured"));
    }
    var templateBuffer := store.Read("templates", req.templateFilename);
    if templateBuffer.None? {
      return Reply(404, Failure("Template file not found"));
    }
    var template := svc.parseJson(templateBuffer.value);
    if template.Err? {
      return Reply(500, Failure(ServerError(template.error)));
    }
    var results := RunChunk(store, req.files.value, template.value, req, apiKey, svc, fails);
    reply := Reply(200, Chunk(results));
    assert results == ChunkResults(old(store.files), req.files.value, req, apiKey, svc);
  }

  /** The second half of `processSingle`, once the text is rewritten: the enhanced
      text is stored when kept, and the template is read only after that write, so a
      missing or unreadable template is reported after it has happened. */
  method StoreOutputs(store: BlobStore, req: Request, markdown: string, enhanced: string, svc: Services,
                      fails: (string, string) -> bool) returns (reply: Reply)
    modifies store
    ensures Outcome(reply, store.files) == FillOutcome(old(store.files), req, (markdown, enhanced), svc, fails)
  {
    ghost var before := store.files;
    var enhancedPath := "";
    var stem := Stem(req.docxFilename);
    if req.keepEnhanced {
      var _ := store.Write("enhanced", EnhancedName(stem), Encode(enhanced), fails("enhanced", EnhancedName(stem)));
      enhancedPath := EnhancedName(stem);
      ApplyOne(before, FileWrite("enhanced", EnhancedName(stem), Encode(enhanced)), fails);
    }
    assert store.files == ApplyAll(before, EnhancedWrites(stem, enhanced, req.keepEnhanced), fails);
    ApplyElsewhere(before, EnhancedWrites(stem, enhanced, req.keepEnhanced), fails, "templates",
                   req.templateFilename);
    var variables := ParseVariables(enhanced, stem);
    var templateBuffer := store.Read("templates", req.templateFilename);
    if templateBuffer.None? {
      return Reply(404, Failure("Template file not found"));
    }
    var template := svc.parseJson(templateBuffer.value);
    if template.Err? {
      return Reply(500, Failure(template.error));
    }
    var generated := ProcessTemplate(template.value, variables);
    var _ := store.Write("generated", JsonName(stem), Encode(generated), fails("generated", JsonName(stem)));
    reply := Reply(200, Single(enhancedPath, JsonName(stem), variables, markdown, enhanced, "vercel-blob"));
  }

  /** `processSingle(data)`: the checks, the conversion and the rewrite, then
      `StoreOutputs`. */
  method ProcessSingle(store: BlobStore, settings: KvStore<string>, req: Request, svc: Services,
                       fails: (string, string) -> bool) returns (reply: Reply)
    modifies store
    ensures Outcome(reply, store.files) == SingleOutcome(old(store.files), ApiKey(settings, req.service), req, svc, fails)
    ensures !reply.body.Chunk?
  {
    if req.docxFilename == [] || req.templateFilename == [] {
      return Reply(400, Failure("Missing required fields"));
    }
    var apiKey := ApiKey(settings, req.service);
    if apiKey == [] {
      return Reply(400, Failure(req.service + " API key not configured"));
    }
    var docx := store.Read("docx", req.docxFilename);
    if docx.None? {
      return Reply(404, Failure("DOCX file not found"));
    }
    var markdown := ToMarkdown(docx.value, svc.toHtml, svc.turndown);
    if markdown.Err? {
      assert Convert(docx.value, req, apiKey, svc) == Err(markdown.error);
      return Reply(500, Failure(markdown.error));
    }
    var enhanced := Enhance(markdown.value, req.prompt, req.service, apiKey, req.model, svc.gemini, svc.openai);
    if enhanced.Err? {
      assert Convert(docx.value, req, apiKey, svc) == Err(enhanced.error);
      return Reply(500, Failure(enhanced.error));
    }
    assert Convert(docx.value, req, apiKey, svc) == Ok((markdown.value, enhanced.value));
    reply := StoreOutputs(store, req, markdown.value, enhanced.value, svc, fails);
  }

  /** A single run stores the same files, in the same order, as a chunk holding just
      that file, and its reply names the same paths as that chunk's record, which
      reports a success. */
  lemma SingleMatchesChunk(docx: seq<byte>, filename: string, template: Json, req: Request, apiKey: string,
                           svc: Services)
    requires Convert(docx, req, apiKey, svc).Ok?
    ensures var enhanced := Convert(docx, req, apiKey, svc).value.1;
            var stem := Stem(filename);
            var r := ItemResult(Some(docx), filename, req, apiKey, svc);
            EnhancedWrites(stem, enhanced, req.keepEnhanced)
              + [FileWrite("generated", JsonName(stem), Encode(ProcessTemplate(template, Variables(enhanced, stem))))]
              == ItemWrites(Some(docx), filename, template, req, apiKey, svc)
            && r == FileResult(filename, "success", "Successfully processed",
                               if req.keepEnhanced then EnhancedName(stem) else "", JsonName(stem))
  {
  }

  /** `POST(request)`: the session check, then the body (`Err` with the error's message
      when it is not JSON), then the action. */
  method Post(store: BlobStore, settings: KvStore<string>, sessions: KvStore<Session>, cookie: Option<string>,
              now: int, authFault: bool, body: Result<Request, string>, svc: Services,
              fails: (string, string) -> bool) returns (reply: Reply)
    modifies store, sessions
    ensures sessions.data == AfterCheck(old(sessions.data), cookie, now, authFault)
    ensures Judge(old(sessions.data), cookie, now) == Live && body.Ok? && body.value.action == Some("process_single") ==>
              Outcome(reply, store.files)
              == SingleOutcome(old(store.files), old(ApiKey(settings, body.value.service)), body.value, svc, fails)
    ensures Judge(old(sessions.data), cookie, now) == Live && body.Ok?
            && body.value.action == Some("process_batch_chunk") ==>
              Outcome(reply, store.files)
              == ChunkOutcome(old(store.files), old(ApiKey(settings, body.value.service)), body.value, svc, fails)
    ensures Judge(old(sessions.data), cookie, now) != Live ==>
              reply == Reply(401, Failure("Unauthorized")) && store.files == old(store.files)
    ensures Judge(old(sessions.data), cookie, now) == Live && body.Err? ==>
              reply == Reply(500, Failure(ServerError(body.error))) && store.files == old(store.files)
    ensures Judge(old(sessions.data), cookie, now) == Live && body.Ok?
            && body.value.action != Some("process_single") && body.value.action != Some("process_batch_chunk") ==>
              reply == Reply(400, Failure("Invalid action")) && store.files == old(store.files)
    ensures reply.body.Single? ==> body.Ok? && body.value.action == Some("process_single")
    ensures reply.body.Chunk? ==> body.Ok? && body.value.action == Some("process_batch_chunk")
  {
    var authorized := CheckAuth(sessions, cookie, now, authFault);
    if !authorized {
      return Reply(401, Failure("Unauthorized"));
    }
    if body.Err? {
      return Reply(500, Failure(ServerError(body.error)));
    }
    if body.value.action == Some("process_single") {
      reply := ProcessSingle(store, settings, body.value, svc, fails);
    } else if body.value.action == Some("process_batch_chunk") {
      reply := ProcessBatchChunk(store, settings, body.value, svc, fails);
    } else {
      reply := Reply(400, Failure("Invalid action"));
    }
  }
}
