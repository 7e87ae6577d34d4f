# Templater: a verified model of the DOCX → AI → JSON template pipeline

Templater is a Next.js application. A signed-in user uploads Word documents (`.docx`)
and JSON templates. The server converts each document to Markdown and asks an AI
service (Gemini or OpenAI) to rewrite it as `key: value` sections. It parses those
sections into a variable map and fills the `{{ key }}` placeholders of the chosen
template with them. The filled template is stored as a JSON file in the `generated`
directory, and the rewritten Markdown can optionally be kept in `enhanced`. A browser
component sends the selected documents to the server in chunks and reports progress.

This project models that core in Dafny:

- `template_processor.dfy`: the variable parser as a `method` with its loop, against
  a reference definition of what the line-anchored regular expression captures; and
  the placeholder substitution and the recursive template walk as functions.
- `docx_converter.dfy` and `ai_service.dfy`: the conversion and the AI call. The
  converters and the AI SDKs are function-typed parameters.
- `process_route.dfy`: the `process_single` and `process_batch_chunk` actions of the
  processing endpoint, as methods over a `BlobStore` and a settings `KvStore`.
- `batch_process.dfy`: the client's batch loop (chunking, progress, the per-chunk
  request, result collection) as a method that emits a timeline of events.
- `auth_middleware.dfy` and `auth_route.dfy`: the session store, the cookie check,
  login, logout, check and the expired-session cleanup.
- `upload_route.dfy` and `download_route.dfy`: the file endpoints.
- `prompt_library.dfy`: the prompt store with its protected default prompt and
  slug identifiers.
- `storage.dfy`: the key/value store and the blob store as classes with mutable maps.
- `json.dfy`, `utf8.dfy` and `text.dfy`: `JSON.stringify(v, null, 2)` with string
  escaping, UTF-8 encoding and decoding, and JavaScript `trim` and whitespace.
- `js_object.dfy`: what a property read on a plain JavaScript object finds when the
  object has no own property of that name.

Storage failures are modelled by `fault` flags or a `fails` predicate supplied by the
caller. The clock (`now`), fresh identifiers, the request cookie, the configured
credentials and the outcomes of the external services are parameters.

The parser stores `template_name` before the scan (`src/lib/template-processor.ts:11-13`),
and each captured line is assigned with `sections[key] = value`
(`src/lib/template-processor.ts:23`). So a scanned `template_name:` line overwrites the
seeded name (`TemplateProcessor.ParsedLookup`). The record is listed as a JavaScript
object lists its keys: array-index keys such as `1` come first, in numeric order, then
the other keys in the order they were first assigned (`TemplateProcessor.TemplateNameFirst`).

## Model

| member | source | states |
|---|---|---|
| TemplateProcessor.Assign | src/lib/template-processor.ts:23 | definition of `sections[key] = value` on a plain object; its ensures gives only the new length, and its properties are stated by AssignLookup, AssignKeepsUnique, AssignKeepsOrder and AssignStringKeys |
| TemplateProcessor.AssignLookup | src/lib/template-processor.ts:23 | after `sections[key] = value`, looking up key gives value, and every other key reads as before |
| TemplateProcessor.AssignKeepsUnique | src/lib/template-processor.ts:23 | keys stay unique, and every entry is the new pair or was already present |
| TemplateProcessor.AssignKeepsOrder | src/lib/template-processor.ts:23 | an assignment keeps the record in JavaScript key order: array-index keys first, in ascending numeric order |
| TemplateProcessor.AssignStringKeys | src/lib/template-processor.ts:23 | the keys that are not array indices keep their order, and a new such key is listed after them |
| TemplateProcessor.WordRunSpec | src/lib/template-processor.ts:16 | `[a-zA-Z0-9_]+` is greedy: every character of the run is a word character, and the run stops at the end or at a non-word character |
| TemplateProcessor.SpaceRunSpec | src/lib/template-processor.ts:16 | `\s*` skips exactly a maximal run of JavaScript whitespace |
| TemplateProcessor.LineEndSpec | src/lib/template-processor.ts:16 | the lazy value with a multiline `$` ends at the first line terminator or at the end of the text |
| TemplateProcessor.MatchAt | src/lib/template-processor.ts:16 | a match found at p starts at p and has ordered positions (key, colon, value) within the text |
| TemplateProcessor.Exec | src/lib/template-processor.ts:19 | `pattern.exec` from lastIndex returns a match that starts at or after lastIndex |
| TemplateProcessor.MatchAtShape | src/lib/template-processor.ts:16 | a match starts at a line start with an identifier key followed by ':' |
| TemplateProcessor.ExecIsLeftmost | src/lib/template-processor.ts:16-19 | exec returns the leftmost match at or after lastIndex; None means no position from lastIndex matches |
| TemplateProcessor.ParseVariables | src/lib/template-processor.ts:8-28 | the loop over `exec` builds exactly the reference map `Variables(content, docxFilename)` (seed, then each captured trimmed nonempty pair); with no match, only the seed |
| TemplateProcessor.Variables | src/lib/template-processor.ts:8-28 | definition (no contract) of what `parseVariables` returns; ParseVariables is proved equal to it, and its properties are stated by ParsedLookup, TemplateNameFirst, ParsedJsOrdered, ParsedWellFormed and RenderRoundTrip |
| TemplateProcessor.Record | src/lib/template-processor.ts:19-25 | definition (no contract) of the loop body applied to each captured pair in turn; its properties are stated by RecordLookup, RecordKeepsKeys and RecordWellFormed |
| TemplateProcessor.RecordLookup | src/lib/template-processor.ts:19-25 | a key reads as the last captured value for it, or as the previous value when no line assigns it |
| TemplateProcessor.ParsedLookup | src/lib/template-processor.ts:11-25 | a key in the parsed map reads as its last captured line, or as the filename seed for `template_name`, or is absent |
| TemplateProcessor.RecordKeepsKeys | src/lib/template-processor.ts:19-25 | recording captures drops no entry, keeps the non-index keys in the order first assigned, and keeps JavaScript key order |
| TemplateProcessor.TemplateNameFirst | src/lib/template-processor.ts:11-25 | with a nonempty filename, `template_name` is listed first exactly when no captured key is an array index |
| TemplateProcessor.ParsedJsOrdered | src/lib/template-processor.ts:8-28 | the returned record is listed in JavaScript key order |
| TemplateProcessor.CapturedKeysAreIdentifiers | src/lib/template-processor.ts:16-21 | every captured key is a nonempty word-character identifier |
| TemplateProcessor.RecordWellFormed | src/lib/template-processor.ts:19-24 | recorded entries have identifier keys and nonempty trimmed values |
| TemplateProcessor.ParsedWellFormed | src/lib/template-processor.ts:16-24 | every entry of the parsed map has an identifier key and a nonempty value |
| TemplateProcessor.KeyLineValue | src/lib/template-processor.ts:16-21 | a line of a word run, ':' and some non-space text always matches up to the line end, and its trimmed value is the trimmed rest of the line |
| TemplateProcessor.BlankRestTakesNextLine | src/lib/template-processor.ts:16-21 | a key with only whitespace after its ':' takes as its value the next line holding something else, from its first non-space character to its end (nonblank once trimmed); with only whitespace left, what is captured trims to nothing and is not recorded |
| TemplateProcessor.NextKeyLineSwallowed | src/lib/template-processor.ts:8-28 | for `a:` followed by the line `b: c`, the result is just `a` with value `b: c`; `b` is never captured |
| TemplateProcessor.RenderScans | src/lib/template-processor.ts:16-21 | scanning the text `k: v` lines rendered from a list of pairs captures exactly those pairs |
| TemplateProcessor.RenderRoundTrip | src/lib/template-processor.ts:8-28 | parsing rendered `key: value` lines gives back the seed with each entry added as a new object key; without array-index keys, the seed followed by the entries in the order written |
| TemplateProcessor.AddAllPlain | src/lib/template-processor.ts:23 | new keys that are not array indices are listed after the existing keys, in the order they were added |
| TemplateProcessor.IndexKeyListedFirst | src/lib/template-processor.ts:11-25 | the output `1: a` for the document `doc` lists `1` before `template_name`, although `template_name` was assigned first |
| TemplateProcessor.RenderLastWins | src/lib/template-processor.ts:19-24 | when a key repeats, the last line wins |
| TemplateProcessor.AssignAsWritten | src/lib/template-processor.ts:23 | assigning `__proto__` on a plain object leaves the map unchanged; any other key is a normal assignment |
| TemplateProcessor.ProtoLineDropped | src/lib/template-processor.ts:23 | a `__proto__: v` line is lost as written, and kept by the corrected assignment |
| TemplateProcessor.RecordAsWrittenLookup | src/lib/template-processor.ts:19-25 | as written, no captured line changes what `__proto__` reads as, while every other key reads as in the corrected record |
| TemplateProcessor.CloseBraceSpec | src/lib/template-processor.ts:36 | `[^}]+` runs up to the first '}' or the end |
| TemplateProcessor.TokenAt | src/lib/template-processor.ts:36 | a placeholder found at p has a nonempty inner part and its closing `}}` lies within the text |
| TemplateProcessor.Resolve | src/lib/template-processor.ts:37 | the replacement is the variable's value when it is defined, and empty otherwise |
| TemplateProcessor.ReplaceFrom | src/lib/template-processor.ts:36-38 | definition (no contract) of `s.replace(pattern, callback)` from a position; its properties are stated by PlainUnchanged, TokenReplaced, ReplaceShift, EmptyBracesKept and CopiedFrom |
| TemplateProcessor.Callback | src/lib/template-processor.ts:36-38 | definition (no contract) of the callback `(match, key) => variables[key.trim()] || ''`; what it yields is stated by TokenResolved and IdentifierReplaced |
| TemplateProcessor.Replace | src/lib/template-processor.ts:36-38 | definition (no contract) of the string-leaf rewrite; its properties are stated by TokenResolved, IdentifierReplaced and SinglePass |
| TemplateProcessor.PlainUnchanged | src/lib/template-processor.ts:36 | a string without `{{` is left unchanged |
| TemplateProcessor.TokenReplaced | src/lib/template-processor.ts:36 | a `{{ inner }}` token is replaced by what the replace callback returns for the text between the braces, and the text after it is rewritten on its own |
| TemplateProcessor.TokenResolved | src/lib/template-processor.ts:36-38 | in the template rewrite a token becomes the value of its trimmed key, and vanishes when no variable has that key |
| TemplateProcessor.ReplaceShift | src/lib/template-processor.ts:36 | the replace scan only looks forward: text in front of a position does not change how the rest is rewritten |
| TemplateProcessor.EmptyBracesKept | src/lib/template-processor.ts:36 | `{{}}` is not a placeholder and is copied |
| TemplateProcessor.CopiedFrom | src/lib/template-processor.ts:36 | text before the next placeholder is copied verbatim |
| TemplateProcessor.IdentifierToken | src/lib/template-processor.ts:36 | `{{key}}` for an identifier key becomes exactly the callback's value for that key |
| TemplateProcessor.IdentifierReplaced | src/lib/template-processor.ts:36-38 | in the template rewrite `{{key}}` becomes the key's variable, or the empty string |
| TemplateProcessor.SinglePass | src/lib/template-processor.ts:36-38 | on the example values a = `{{b}}` and b = `x`: `{{a}}` becomes `{{b}}` in one rewrite, and only a second rewrite gives `x` |
| TemplateProcessor.ResolveAsWritten | src/lib/template-processor.ts:37 | `variables[key] \|\| ''` agrees with the own-key lookup whenever the key is defined |
| TemplateProcessor.ConstructorLeaks | src/lib/template-processor.ts:37 | as written, `{{constructor}}` with no such variable becomes the text of `Object`, while the corrected lookup gives "" |
| TemplateProcessor.ConstructorInherited | src/lib/template-processor.ts:37 | a plain object inherits a truthy `constructor` member |
| JsObject.Inherited | src/lib/template-processor.ts:37 | definition (no contract) of what a read of a name a plain object does not own finds on `Object.prototype`; its properties are stated by ConstructorInherited, ResolveAgrees and DownloadRoute.DirForAsWritten |
| TemplateProcessor.ResolveAgrees | src/lib/template-processor.ts:37 | the as-written and corrected lookups agree unless the key names an inherited member and has no own value |
| TemplateProcessor.Merge | src/lib/template-processor.ts:34-49 | definition (no contract) of the recursive `replacer`; its properties are stated by MergeKeepsShape and MergePlain |
| TemplateProcessor.ProcessTemplate | src/lib/template-processor.ts:33-52 | definition (no contract) of `processTemplate`; its properties are stated by ProcessStringTemplate and ProcessPlainTemplate |
| TemplateProcessor.MergeKeepsShape | src/lib/template-processor.ts:34-49 | the replacer keeps the tree's shape: array lengths, object keys in order, and non-string leaves |
| TemplateProcessor.MergePlain | src/lib/template-processor.ts:34-49 | a template without placeholders comes back unchanged |
| TemplateProcessor.ProcessStringTemplate | src/lib/template-processor.ts:33-52 | a string template yields a quoted JSON string that reads back as the substituted text |
| TemplateProcessor.ProcessPlainTemplate | src/lib/template-processor.ts:33-52 | a template without placeholders is output exactly as `JSON.stringify(t, null, 2)` |
| Text.TrimStart | src/lib/template-processor.ts:20-21 | definition (no contract) of `trimStart`; its properties are stated by TrimStartSpec |
| Text.TrimEnd | src/lib/template-processor.ts:20-21 | definition (no contract) of `trimEnd`; its properties are stated by TrimEndSpec |
| Text.Trim | src/lib/template-processor.ts:20-21 | definition (no contract) of `trim`; its properties are stated by TrimIsInfix, TrimBorders, TrimEmpty and TrimIdempotent |
| Text.TrimStartSpec | src/lib/template-processor.ts:20-21 | trimStart removes exactly the leading whitespace |
| Text.TrimEndSpec | src/lib/template-processor.ts:20-21 | trimEnd removes exactly the trailing whitespace |
| Text.TrimIsInfix | src/lib/template-processor.ts:20-21 | trim is an infix of the input, with only whitespace cut on either side |
| Text.TrimBorders | src/lib/template-processor.ts:20-21 | a nonempty trim result starts and ends with a non-space |
| Text.TrimEmpty | src/lib/template-processor.ts:22 | trim is empty exactly when the input is all whitespace |
| Text.TrimIdempotent | src/lib/template-processor.ts:20-21 | trimming twice is trimming once |
| Text.LineTerminatorIsSpace | src/lib/template-processor.ts:16 | every line terminator is also `\s` whitespace |
| Text.Lower | src/app/api/download/route.ts:39 | lowers each character on its own, so the length is kept; only ASCII capitals are lowered |
| Text.LowerCharIdempotent | src/app/api/download/route.ts:39 | lowering is idempotent and leaves no ASCII capital |
| Json.EscapeChar | src/lib/template-processor.ts:52 | each character escapes to a nonempty text |
| Json.UnescapeChar | src/lib/template-processor.ts:52 | unescaping an escaped character gives that character back, followed by the rest |
| Json.UnescapeEscape | src/lib/template-processor.ts:52 | the JSON string escape round-trips: unescape(escape(s)) == s |
| Json.EscapeHasNoControl | src/lib/template-processor.ts:52 | the escaped text contains no control character |
| Json.DecimalDigits | src/lib/template-processor.ts:52 | numbers print as a nonempty run of decimal digits |
| Json.DecimalDigitsValue | src/lib/template-processor.ts:52 | the digits printed for n read back as n, and start with '0' only for zero itself |
| Json.NumberTextValue | src/lib/template-processor.ts:52 | a number leaf prints as its digits, preceded by '-' when negative, and they read back as its magnitude |
| Json.NumberText | src/lib/template-processor.ts:52 | definition (no contract) of how `JSON.stringify` prints an integer; its properties are stated by NumberTextValue |
| Json.Escape | src/lib/template-processor.ts:52 | definition (no contract) of `JSON.stringify`'s escaping of a string's characters; its properties are stated by UnescapeEscape and EscapeHasNoControl |
| Json.Quote | src/lib/template-processor.ts:52 | definition (no contract) of the string literal `JSON.stringify` writes; its properties are stated by StringLeafReadsBack |
| Json.Stringify | src/lib/template-processor.ts:52 | definition (no contract) of `JSON.stringify(v, null, 2)`; its properties are stated by StringLeafReadsBack, ProcessStringTemplate and ProcessPlainTemplate |
| Json.StringLeafReadsBack | src/lib/template-processor.ts:52 | a stringified string leaf is quoted and reads back as the original string |
| Utf8.Encode | src/app/api/process/route.ts:86 | definition (no contract) of `Buffer.from(s, 'utf-8')`; its properties are stated by DecodeEncode and EncodeAscii |
| Utf8.Decode | src/app/api/process/route.ts:78 | definition (no contract) of strict UTF-8 decoding of a byte sequence; its properties are stated by DecodeEncode |
| Utf8.EncodeChar | src/app/api/process/route.ts:86 | one code point encodes to one to four bytes |
| Utf8.DecodeHead | src/app/api/process/route.ts:78 | decoding consumes between one byte and the whole input |
| Utf8.DecodeEncodeChar | src/app/api/process/route.ts:86 | decoding the encoding of one character gives it back with its length |
| Utf8.DecodeEncode | src/app/api/process/route.ts:86 | `Buffer.from(s, 'utf-8')` read back as utf-8 gives s |
| Utf8.EncodeAscii | src/app/api/process/route.ts:86 | ASCII text encodes to one byte per character, with the same values |
| Storage.KvStore.Set | src/lib/storage.ts:32-44 | a successful write makes the key read back as the value and every other key read as before; a failed write changes nothing |
| Storage.KvStore.Delete | src/lib/storage.ts:49-59 | delete succeeds only for a present key without a fault; afterwards the key is absent exactly when the delete succeeded or it was absent already, and every other key reads as before |
| Storage.BlobStore.Write | src/lib/file-storage.ts:30-38 | a successful write makes (directory, name) read back as the bytes and every other file read as before; a failed write changes nothing |
| DocxConverter.FirstH1 | src/lib/docx-converter.ts:27-30 | the first `<h1` found lies at or after the search start |
| DocxConverter.FirstH1Spec | src/lib/docx-converter.ts:27-30 | the position found is an `<h1` with none before it; None means no `<h1` at all |
| DocxConverter.StripSpec | src/lib/docx-converter.ts:27-30 | HTML starting at the first `<h1` is cut to start there; without one it is unchanged |
| DocxConverter.StripIdempotent | src/lib/docx-converter.ts:27-30 | stripping before the first heading twice is stripping once |
| DocxConverter.ToMarkdown | src/lib/docx-converter.ts:20-39 | conversion succeeds exactly when both converters succeed, and every error starts with "Failed to convert DOCX to Markdown: " |
| DocxConverter.ToMarkdownTrimmed | src/lib/docx-converter.ts:35 | the Markdown result is the trimmed Turndown output |
| AiService.ModelOrDefault | src/lib/ai-service.ts:16 | an omitted model falls back to the service default |
| AiService.GeminiPromptParts | src/lib/ai-service.ts:22 | the Gemini prompt is the instruction, the fixed separator, then the content |
| AiService.GeminiPromptInjective | src/lib/ai-service.ts:22 | for a fixed instruction, different contents give different prompts |
| AiService.GeminiCall | src/lib/ai-service.ts:19-24 | the request names the model asked for, or the Gemini default when none is given, and carries the combined prompt |
| AiService.ChatCall | src/lib/ai-service.ts:44-52 | the request names the model asked for or the default; it holds exactly two messages, the prompt as `system` and the content as `user`; temperature is 0.7 and max_tokens 4000 |
| AiService.EnhanceWithGemini | src/lib/ai-service.ts:12-30 | succeeds exactly when the SDK call does, with its text; errors start with "Gemini API error: " |
| AiService.EnhanceWithOpenAI | src/lib/ai-service.ts:35-58 | succeeds exactly when the SDK call does, with the message text, or "" when there is none; errors start with "OpenAI API error: " |
| AiService.Enhance | src/lib/ai-service.ts:63-77 | dispatches on the service name; any other name is "Invalid AI service selected" |
| AiService.EnhanceErrors | src/lib/ai-service.ts:63-77 | every enhancement error carries a service prefix or is the invalid-service error |
| AuthMiddleware.SessionKey | src/lib/auth-middleware.ts:8-10 | session keys are the session prefix followed by the identifier |
| AuthMiddleware.SessionOf | src/lib/auth-middleware.ts:20-35 | definition (no contract) of the cookie read and the session lookup; LiveIff states the lookup outright |
| AuthMiddleware.Judge | src/lib/auth-middleware.ts:19-45 | definition (no contract) of the decision sequence of `checkAuth`; its properties are stated by LiveIff, ExpiryIsFinal and CheckAuth |
| AuthMiddleware.LiveIff | src/lib/auth-middleware.ts:19-45 | a request is authenticated exactly when a cookie names a stored session whose expiry is after now |
| AuthMiddleware.AfterCheck | src/lib/auth-middleware.ts:20-44 | the check keeps every session as it was, except that it may remove the cookie's expired session, and does remove it when the delete does not fail |
| AuthMiddleware.CheckAuth | src/lib/auth-middleware.ts:19-45 | returns true exactly for a live session, and leaves the store as `AfterCheck` describes |
| AuthMiddleware.ExpiredStaysOut | src/lib/auth-middleware.ts:37-41 | once the expired session is deleted, the same cookie finds no session at any later time |
| AuthMiddleware.ExpiryIsFinal | src/lib/auth-middleware.ts:37-41 | an expired session stays expired later |
| AuthRoute.SetSession | src/app/api/auth/route.ts:11-18 | stores the session under its key unless the write fails |
| AuthRoute.DeleteSession | src/app/api/auth/route.ts:35-38 | removes the session key unless the delete fails |
| AuthRoute.Cleanup | src/app/api/auth/route.ts:45-62 | reports every expired session, and removes all of them except those whose delete failed |
| AuthRoute.ExpiredOfListing | src/app/api/auth/route.ts:45-62 | the expired entries of the prefix listing are the expired session keys of the store |
| AuthRoute.DeleteExpired | src/app/api/auth/route.ts:50-55 | the loop counts the expired entries of the listing and deletes them, except failed ones |
| AuthRoute.VisitKey | src/app/api/auth/route.ts:51-54 | one iteration counts an expired entry and deletes it unless the delete fails |
| AuthRoute.Advance | src/app/api/auth/route.ts:50-55 | one visited key keeps the loop invariant |
| AuthRoute.CleanupLeavesLive | src/app/api/auth/route.ts:45-62 | every remaining session is live or its delete failed |
| AuthRoute.CleanupCount | src/app/api/auth/route.ts:40-62 | the sessions counted after deleting the expired ones, plus the number deleted, is the count before; what is left counted is the live sessions |
| AuthRoute.Count | src/app/api/auth/route.ts:40-43 | definition (no contract) of `SessionManager.count`; its properties are stated by CountAfterSet, CleanupCount and LoginSignsIn |
| AuthRoute.CountAfterSet | src/app/api/auth/route.ts:11-18 | storing a session under an unused key adds one to `count()` |
| AuthRoute.Prefix8 | src/app/api/auth/route.ts:102 | `substring(0, 8)` is the first eight characters, or the whole string when shorter |
| AuthRoute.Login | src/app/api/auth/route.ts:81-107 | its reply, cookie and store are the login outcome: valid credentials store a session expiring in 24 hours and set the cookie; other credentials give 401 and change nothing |
| AuthRoute.LoginOutcome | src/app/api/auth/route.ts:81-107 | definition (no contract) of what `login` leaves behind; Login is proved equal to it, and its properties are stated by LoginSessionLifetime, LoginSignsIn and LoginRefused |
| AuthRoute.LoginSessionLifetime | src/app/api/auth/route.ts:86 | a fresh login is authenticated until its 24 hours elapse, and expired from then on |
| AuthRoute.LoginSignsIn | src/app/api/auth/route.ts:81-107 | with a fresh identifier and no fault, login replies 200, sets the cookie, adds one session, and the cookie is authenticated exactly until 24 hours have passed |
| AuthRoute.LoginRefused | src/app/api/auth/route.ts:81-107 | wrong credentials give 401 "Invalid credentials" and leave the cookie and the store as they were |
| AuthRoute.Logout | src/app/api/auth/route.ts:109-119 | its reply, cookie and store are the logout outcome: always "Logged out"; a present cookie is cleared and its session deleted unless the delete fails |
| AuthRoute.LogoutOutcome | src/app/api/auth/route.ts:109-119 | definition (no contract) of what `logout` leaves behind; Logout is proved equal to it, and its properties are stated by LogoutSignsOut |
| AuthRoute.LogoutSignsOut | src/app/api/auth/route.ts:109-119 | after a logout without fault the cookie is cleared, the old cookie finds no session, and every other session is kept |
| AuthRoute.Check | src/app/api/auth/route.ts:121-136 | its reply and store are the check outcome: the middleware's verdict, with its cleanup of an expired session |
| AuthRoute.CheckOutcome | src/app/api/auth/route.ts:121-136 | definition (no contract) of what `check` answers; Check is proved equal to it, and its properties are stated by CheckAnswers |
| AuthRoute.CheckAnswers | src/app/api/auth/route.ts:121-136 | `check` answers true exactly for a stored session expiring after now, and leaves the store unchanged for a live session |
| AuthRoute.Post | src/app/api/auth/route.ts:76-142 | an unreadable body is 500 "Server error" and an unknown action 400, both changing nothing; login, logout and check each have exactly that action's outcome |
| PromptLibrary.Default | src/lib/prompt-library.ts:67-73 | the default prompt has the fixed name and the current time |
| PromptLibrary.DropRun | src/lib/prompt-library.ts:78-80 | dropping the leading characters outside `[a-z0-9]` leaves a suffix of the input that is empty or starts with a kept character |
| PromptLibrary.LowerName | src/lib/prompt-library.ts:79 | definition (no contract) of `name.toLowerCase()` as far as the slug can tell; its properties are stated by CreateIdShape and DefaultNameCollides |
| PromptLibrary.Slug | src/lib/prompt-library.ts:79 | definition (no contract) of `.replace(/[^a-z0-9]+/g, '_')`; its properties are stated by SlugShape, SlugKeeps, SlugFixes and SlugIdempotent |
| PromptLibrary.CreateId | src/lib/prompt-library.ts:78-80 | definition (no contract) of `createId`; its properties are stated by CreateIdShape and DefaultNameCollides |
| PromptLibrary.SlugShape | src/lib/prompt-library.ts:78-80 | a slug has only lower-case letters, digits and '_', never two '_' in a row, and starts with the input's first character when that one is kept |
| PromptLibrary.SlugKeeps | src/lib/prompt-library.ts:78-80 | the slug keeps exactly the letters and digits of the input, in order |
| PromptLibrary.SlugFixes | src/lib/prompt-library.ts:78-80 | a text already shaped like a slug is its own slug |
| PromptLibrary.SlugIdempotent | src/lib/prompt-library.ts:78-80 | slugging twice is slugging once |
| PromptLibrary.CreateIdShape | src/lib/prompt-library.ts:78-80 | an identifier is the prompt prefix followed by a slug |
| PromptLibrary.DefaultNameCollides | src/lib/prompt-library.ts:67-80 | a prompt named "Default" gets the default prompt's identifier |
| PromptLibrary.GetAll | src/lib/prompt-library.ts:16-28 | lists the stored prompts, or seeds and lists only the default prompt when there are none; once seeded, the default identifier reads as the default prompt |
| PromptLibrary.SeededListing | src/lib/prompt-library.ts:20-25 | after seeding an empty library, the listing is just the default prompt |
| PromptLibrary.Get | src/lib/prompt-library.ts:33-35 | `getAsync(id)`: its ensures only read the store, so its properties are stated by Save (Get then gives the saved prompt) and Delete (Get then gives nothing) |
| PromptLibrary.Save | src/lib/prompt-library.ts:40-46 | a successful save makes the identifier read back as the prompt and every other identifier read as before; a failed one changes nothing |
| PromptLibrary.Delete | src/lib/prompt-library.ts:51-61 | refuses the default prompt and deletes any other present prompt, after which it reads as absent; every other identifier reads as before |
| UploadRoute.Directory | src/app/api/upload/route.ts:23-36 | definition (no contract) of the directory choice and its refusals; its properties are stated by DirectoryCases and ExtensionsExclusive |
| UploadRoute.DirectoryCases | src/app/api/upload/route.ts:23-36 | `.docx` goes to docx, `.json` to templates; a mismatch with the declared type or an unknown type is rejected with its message |
| UploadRoute.ExtensionsExclusive | src/app/api/upload/route.ts:23-36 | no name ends in both `.docx` and `.json` |
| UploadRoute.Post | src/app/api/upload/route.ts:5-58 | 401 without a live session; 500 with the error's message, or "Upload failed", when the form cannot be read; 400 for no file or a wrong type; 500 for a failed write; on success the bytes are stored under the chosen directory; the store changes only on success, and the sessions are left as the middleware's check leaves them |
| DownloadRoute.DirFor | src/app/api/download/route.ts:19-29 | exactly the four file types have a directory |
| DownloadRoute.DirForAsWritten | src/app/api/download/route.ts:26-29 | the `dirMap[type]` lookup agrees with the intended map on the four types |
| DownloadRoute.ConstructorTypeAccepted | src/app/api/download/route.ts:26-29 | as written, type "constructor" passes the check, while the corrected map rejects it |
| DownloadRoute.AfterLastDot | src/app/api/download/route.ts:39 | `split('.').pop()` is the suffix after the last dot, with no dot in it |
| DownloadRoute.AfterLastDotCut | src/app/api/download/route.ts:39 | the extension is the whole name when it has no dot, and otherwise follows its last dot |
| DownloadRoute.AfterLastDotLower | src/app/api/download/route.ts:39 | taking the extension commutes with lowering the case |
| DownloadRoute.Extension | src/app/api/download/route.ts:39 | definition (no contract) of `filename.split('.').pop()?.toLowerCase()`; its properties are stated by AfterLastDotCut and ExtensionIgnoresCase |
| DownloadRoute.ExtensionIgnoresCase | src/app/api/download/route.ts:39 | a file name and its lower-case form have the same extension |
| DownloadRoute.ContentType | src/app/api/download/route.ts:40-46 | any unlisted extension is served as `application/octet-stream` |
| DownloadRoute.Get | src/app/api/download/route.ts:5-61 | 401 without a live session; 400 for missing or invalid parameters; 404 for an absent file; otherwise the stored bytes with the extension's content type; the sessions are left as the middleware's check leaves them |
| ProcessRoute.LastIndexFinds | src/app/api/process/route.ts:62 | the index found holds the character and none comes after it; nothing is found only when the text holds no such character |
| ProcessRoute.StripSlashesShape | src/app/api/process/route.ts:62 | the result is a prefix of the path that does not end in '/', and only '/' characters are cut from the end |
| ProcessRoute.BaseName | src/app/api/process/route.ts:62 | definition (no contract) of the last path component that `path.parse` takes; its properties are stated by BaseNameShape |
| ProcessRoute.Stem | src/app/api/process/route.ts:62 | definition (no contract) of `path.parse(p).name`, including the `..` directly under the root that Node splits as `.` and `.`; its properties are stated by StemHasNoSeparator, StemOfExtension, DotDotStem and RootDotDotStem |
| ProcessRoute.BaseNameShape | src/app/api/process/route.ts:62 | the base name is the suffix of the slash-stripped path after its last '/', or the whole of it when it holds none; it contains no '/' |
| ProcessRoute.StemHasNoSeparator | src/app/api/process/route.ts:62-63 | the stem holds no '/', so the names built from it stay inside their directory |
| ProcessRoute.StemOfExtension | src/app/api/process/route.ts:62 | `path.parse(name + "." + ext).name` is name for a nonempty name and an extension without '.' or '/' |
| ProcessRoute.DotDotStem | src/app/api/process/route.ts:62 | a last component `..` is its own stem: `..`, `a/..` and `a/../` all give `..` |
| ProcessRoute.RootDotDotStem | src/app/api/process/route.ts:62 | directly under the root `..` is split at its last dot: `/..` and `/../` give the stem `.`, as Node's posix `path.parse` does |
| ProcessRoute.ApplyAppend | src/app/api/process/route.ts:124-175 | applying two write lists in turn is applying their concatenation |
| ProcessRoute.ApplyElsewhere | src/app/api/process/route.ts:124-175 | writes to other directories leave a file as it was |
| ProcessRoute.ApiKey | src/app/api/process/route.ts:41 | definition (no contract) of `Storage.getAsync('<service>_api_key', '')`; ProcessSingle and ProcessBatchChunk are proved equal to their outcomes taken with it as the stored key, and ProcessBatchChunk states the 400 answer when it is empty |
| ProcessRoute.Convert | src/app/api/process/route.ts:54-57 | conversion then enhancement; errors carry the converter's or a service's prefix |
| ProcessRoute.Reason | src/app/api/process/route.ts:171 | an empty error message is reported as "Processing failed" |
| ProcessRoute.ItemResult | src/app/api/process/route.ts:127-172 | a file succeeds exactly when it exists and converts; success names the JSON output and, when kept, the enhanced output; failure has a nonempty message and no paths; a missing file is "File not found" |
| ProcessRoute.ResultMatchesWrites | src/app/api/process/route.ts:127-172 | a failed file writes nothing; a successful one writes the JSON last, and the enhanced text first exactly when its path is reported |
| ProcessRoute.GeneratedReadsBack | src/app/api/process/route.ts:82-86 | the generated file decodes back to the filled template's JSON text |
| ProcessRoute.ItemWritesOutputs | src/app/api/process/route.ts:149-166 | a file's writes go only to the enhanced and generated directories |
| ProcessRoute.ProcessFile | src/app/api/process/route.ts:127-174 | one file: the record is the reference result, and the store gains exactly the reference writes (failed writes skipped) |
| ProcessRoute.ChunkWrites | src/app/api/process/route.ts:124-175 | a chunk writes only to the enhanced and generated directories |
| ProcessRoute.RecordsStep | src/app/api/process/route.ts:124-175 | one more file keeps the per-file record invariant |
| ProcessRoute.ChunkWritesStep | src/app/api/process/route.ts:124-175 | the writes of a longer prefix are the previous writes followed by the new file's |
| ProcessRoute.RunChunk | src/app/api/process/route.ts:124-175 | one record per file in order, each the reference result, with the store updated by the writes of all files in order |
| ProcessRoute.ServerError | src/app/api/process/route.ts:29 | an empty error message is reported as "Server error" |
| ProcessRoute.ProcessBatchChunk | src/app/api/process/route.ts:102-178 | 400 without files or key, 404 without template, 500 for a template that does not parse, otherwise 200 with one result per file and the store updated; reply and store are `ChunkOutcome` |
| ProcessRoute.ProcessSingle | src/app/api/process/route.ts:33-100 | 400 for missing fields or key and 404 for a missing docx, 500 for a conversion or AI error, all with no file written; after that, a missing template (404) or one that does not parse (500) leaves the kept enhanced file written; otherwise 200 with the variables, Markdown and outputs; reply and store are `SingleOutcome` |
| ProcessRoute.ChunkResults | src/app/api/process/route.ts:124-175 | one record per file, in order, each the result of that file alone |
| ProcessRoute.ChunkOutcome | src/app/api/process/route.ts:102-178 | definition (no contract) of what `processBatchChunk` leaves behind; ProcessBatchChunk is proved equal to it, and its properties are stated by ChunkOutcomeShape, ChunkResults and ResultMatchesWrites |
| ProcessRoute.ChunkOutcomeShape | src/app/api/process/route.ts:102-178 | a chunk leaves files outside `enhanced` and `generated` unchanged, answers 200 exactly when it has files, a key and a parsable stored template, and then holds one record per file |
| ProcessRoute.SingleOutcome | src/app/api/process/route.ts:33-100 | definition (no contract) of what `processSingle` leaves behind; ProcessSingle is proved equal to it, and its properties are stated by SingleKeepsInputs, SingleStoresReply and SingleMatchesChunk |
| ProcessRoute.FillOutcome | src/app/api/process/route.ts:59-96 | definition (no contract) of the part of `processSingle` after the rewrite; StoreOutputs is proved equal to it, and its properties are stated by FillKeepsInputs |
| ProcessRoute.SingleKeepsInputs | src/app/api/process/route.ts:33-100 | a single run leaves files outside `enhanced` and `generated` unchanged |
| ProcessRoute.FillKeepsInputs | src/app/api/process/route.ts:59-96 | the stage after the rewrite writes nothing outside `enhanced` and `generated` |
| ProcessRoute.StoreOutputs | src/app/api/process/route.ts:59-96 | the enhanced text is written when kept, then 404 without the template, 500 when it does not parse, otherwise the filled template is written and 200 answers the paths, variables and texts; reply and store are `FillOutcome` |
| ProcessRoute.SingleStoresReply | src/app/api/process/route.ts:61-97 | after a 200 reply, unless that write failed, the generated file reads back as the template filled with exactly the variables answered, and the named enhanced file reads back as the enhanced text answered |
| ProcessRoute.SingleMatchesChunk | src/app/api/process/route.ts:54-86 | after a successful conversion, a single request writes the same files as a chunk entry for the same document |
| ProcessRoute.Post | src/app/api/process/route.ts:10-31 | 401 without a live session, 500 for an unreadable body, 400 for an unknown action, none of them changing files; the sessions are left as the middleware's check leaves them; `process_single` and `process_batch_chunk` have exactly the outcome of that action |
| BatchProcess.Chunks | src/components/BatchProcess.tsx:63-66 | definition (no contract) of the consecutive slices of the batch size; Partition is proved equal to it, and its properties are stated by ChunksFlatten, ChunksSizes and ChunksCount |
| BatchProcess.Partition | src/components/BatchProcess.tsx:63-66 | the slicing loop produces exactly the reference chunking |
| BatchProcess.ChunksFlatten | src/components/BatchProcess.tsx:63-66 | concatenating the chunks gives back the selection |
| BatchProcess.ChunksSizes | src/components/BatchProcess.tsx:63-66 | every chunk holds 1 to batch-size files, and all but the last hold exactly batch-size |
| BatchProcess.ChunksCount | src/components/BatchProcess.tsx:63-66 | there are ceil(n / batch size) chunks |
| BatchProcess.HandleProcess | src/components/BatchProcess.tsx:53-107 | the events are the reference timeline for the chunking, and the results are what the chunk replies carry, in order |
| BatchProcess.PromptText | src/components/BatchProcess.tsx:59 | definition (no contract) of `prompts[formData.prompt_id]?.content || ''`; it is the prompt of every request SendsInOrder states |
| BatchProcess.ModelFor | src/components/BatchProcess.tsx:60 | definition (no contract) of the chosen service's model; it is the model of every request SendsInOrder states |
| BatchProcess.RequestFor | src/components/BatchProcess.tsx:75-87 | definition (no contract) of the body posted for a chunk; SendsInOrder states that exactly these are sent, one per chunk, in order |
| BatchProcess.Timeline | src/components/BatchProcess.tsx:53-107 | definition (no contract) of everything `handleProcess` does, in order; HandleProcess is proved equal to it, and its properties are stated by StepsFilters, SendsInOrder, ProgressValues and PausesBetween |
| BatchProcess.SendChunk | src/components/BatchProcess.tsx:75-95 | one chunk's request events and collected records |
| BatchProcess.LoopStep | src/components/BatchProcess.tsx:70-101 | one iteration extends the timeline and the results as the reference does |
| BatchProcess.FiltersAppend | src/components/BatchProcess.tsx:70-103 | the event filters distribute over concatenation |
| BatchProcess.StepsFilters | src/components/BatchProcess.tsx:70-101 | the loop's sends, progress values and pauses are per-chunk, one each (no pause after the last) |
| BatchProcess.SendsInOrder | src/components/BatchProcess.tsx:70-101 | exactly one request per chunk, in chunk order, each naming that chunk's files with the form's settings |
| BatchProcess.ProgressValues | src/components/BatchProcess.tsx:72 | the progress shown is 0, then Math.round(i/n·100) per chunk, then 100 |
| BatchProcess.ProgressNonDecreasing | src/components/BatchProcess.tsx:72 | the progress shown never goes back |
| BatchProcess.Percent | src/components/BatchProcess.tsx:72 | definition (no contract) of `Math.round((i / chunks.length) * 100)`; its properties are stated by ProgressValues, PercentMonotone and PercentAtMost |
| BatchProcess.PercentMonotone | src/components/BatchProcess.tsx:72 | the rounded percentage grows with the chunk index |
| BatchProcess.PercentAtMost | src/components/BatchProcess.tsx:72 | a chunk index below the count gives at most 100 |
| BatchProcess.PausesBetween | src/components/BatchProcess.tsx:98-100 | there are n-1 one-second pauses, none after the last chunk, which is followed by 100% |
| BatchProcess.Harvest | src/components/BatchProcess.tsx:89-92 | definition (no contract) of what one reply adds to `allResults`; its properties are stated by FailedChunkSkipped and CollectedNames |
| BatchProcess.Collected | src/components/BatchProcess.tsx:68-101 | definition (no contract) of `allResults`; HandleProcess is proved equal to it, and its properties are stated by CollectedNames, AllSelectedReported and FailedChunkSkipped |
| BatchProcess.CollectedNames | src/components/BatchProcess.tsx:89-91 | when every chunk is answered with one record per file, the names collected are the chunks' files in order |
| BatchProcess.AllSelectedReported | src/components/BatchProcess.tsx:53-107 | when every chunk is answered, every selected file is reported once, in selection order |
| BatchProcess.FailedChunkSkipped | src/components/BatchProcess.tsx:93-95 | a failed chunk request adds no results and does not stop the loop |

## Left out

- Reading and writing files, the database and HTTP are modelled as the `BlobStore` and `KvStore` maps. Failures of writes and deletes are caller-supplied flags; reads always answer.
- The settings, sessions and prompts live in one key/value table in the source. The model keeps a separate `KvStore` per value kind and omits the JSON (de)serialisation of stored values.
- The mammoth and Turndown converters, the Gemini and OpenAI SDKs and `JSON.parse` of the template are function-typed parameters. The model does not capture what those libraries do. The configured username and password are a `credentials` pair given to `AuthRoute.Login`.
- The template's UTF-8 decoding is folded into the `parseJson` parameter of `ProcessRoute`.
- The clock, `uuid` session identifiers and the request cookie are parameters. Cookie attributes (httpOnly, maxAge, sameSite) are not modelled.
- Console logging, the `success: true` flag of responses and the React state updates and rendering of the batch component are not modelled. The batch loop emits a timeline of events instead.
- `BatchProcess.HandleProcess`: the request to the server is a parameter `send` from request to an optional reply (None is a network or JSON failure), so the model does not capture concurrency with the UI.
- OpenAI's `temperature: 0.7` is recorded in the request as a decimal; floating point is not modelled. `Math.round` of the progress is modelled exactly on integers.
- `ProcessRoute.Post`: a missing body field is modelled as the empty string, and a non-string file entry is not representable. In the source a missing `service` gives the key name `undefined_api_key`.
- `TemplateProcessor.Merge`: an object key `__proto__` in a template is copied as an ordinary key. In the source `newObj['__proto__'] = v` drops it, as in the parser finding below.
- `Json.DecimalDigits`: only integers are modelled. `JSON.stringify` prints non-integer numbers with a fraction and numbers from 1e21 up in exponent form; templates holding such numbers are not covered.
- Strings are sequences of Unicode scalar values. A JavaScript string can also hold a lone surrogate, which `JSON.stringify` writes as a `\udXXX` escape and `Buffer.from(s, 'utf-8')` writes as the bytes EF BF BD; such strings are not representable here.
- `Text.Lower`: only ASCII capitals are lowered; the Unicode case mapping of `toLowerCase` is not modelled.
- `TemplateProcessor.Merge`: the object keys of a parsed template are kept in the order the `parseJson` parameter gives them; the array-index-first order of `JSON.parse` is not modelled there.
- `DownloadRoute.ContentType`: the contentTypes lookup is modelled on own keys only; an extension named after an inherited member is not modelled.
- `AuthRoute.Cleanup`: the order in which `Object.entries` visits sessions is not modelled (the result does not depend on it). The cleanup run at module load is not modelled.
- `UploadRoute.Post`: a form entry that is not a `File` is treated as no file.
- The index maintenance of the storage layer and `getStorageType`, a constant, are not modelled.

## Findings

| source | as written | input that shows it | evidently intended | confidence | as-written member | corrected member |
|---|---|---|---|---|---|---|
| src/lib/template-processor.ts:37 | `variables[key.trim()] \|\| ''` also finds members inherited from `Object.prototype` | a template string `{{constructor}}` with no `constructor:` line becomes `function Object() { [native code] }` | an undefined variable is replaced by "" | not executed | TemplateProcessor.ConstructorLeaks | TemplateProcessor.TokenResolved |
| src/lib/template-processor.ts:23 | `sections[key] = value` on a plain object ignores the key `__proto__` | the line `__proto__: x` in the AI output yields no variable | every captured key becomes a variable | not executed | TemplateProcessor.RecordAsWrittenLookup | TemplateProcessor.RecordLookup |
| src/app/api/download/route.ts:26-29 | `dirMap[type]` accepts inherited member names as types | `type=constructor` passes the check and the request fails with 404 | any type other than the four is rejected with 400 "Invalid type" | not executed | DownloadRoute.ConstructorTypeAccepted | DownloadRoute.DirFor |
