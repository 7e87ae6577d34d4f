/** `handleProcess` of the batch form: the selected DOCX files are cut into chunks of
    the chosen size, each chunk is posted to `/api/process` in turn, progress is
    reported before every chunk, and the records of the chunks that succeed are
    gathered. The server is a parameter (`send`), answering a request with its reply,
    or with nothing when the request or the reading of the reply throws; React state
    updates and the one-second timer are recorded as events. */
module BatchProcess {
  import opened Wrappers
  import opened PromptLibrary
  import opened ProcessRoute

  /** The form's fields that `handleProcess` reads. */
  datatype Form = Form(templateFilename: string, service: string, geminiModel: string, openaiModel: string,
                       promptId: string, batchSize: nat, keepEnhanced: bool)

  /** What the user sees happen: a progress value, a request sent (and awaited), and
      the pause between two chunks. */
  datatype Event = Progress(percent: nat) | Send(request: Request) | Pause

  // ---------------------------------------------------------------------------
  // The chunks

  function Min(a: int, b: int): int
  {
    if a <= b then a else b
  }

  /** The consecutive slices of `size` files, the last one possibly shorter. */
  function Chunks(files: seq<string>, size: nat): seq<seq<string>>
    requires size > 0
    decreases |files|
  {
    if files == [] then []
    else if |files| <= size then [files]
    else [files[..size]] + Chunks(files[size..], size)
  }

  function Flatten(chunks: seq<seq<string>>): seq<string>
  {
    if chunks == [] then [] else chunks[0] + Flatten(chunks[1..])
  }

  /** The stepping `for` loop that fills `chunks` with `selectedFiles.slice(i, i + size)`. */
  method Partition(files: seq<string>, size: nat) returns (chunks: seq<seq<string>>)
    requires size > 0
    ensures chunks == Chunks(files, size)
  {
    chunks := [];
    var i := 0;
    while i < |files|
      invariant i < |files| ==> chunks + Chunks(files[i..], size) == Chunks(files, size)
      invariant i >= |files| ==> chunks == Chunks(files, size)
      decreases |files| - i
    {
      var chunk := files[i..Min(i + size, |files|)];
      if i + size < |files| {
        assert files[i..][..size] == chunk;
        assert files[i..][size..] == files[i + size..];
        assert chunks + [chunk] + Chunks(files[i + size..], size) == Chunks(files, size);
      } else {
        assert chunk == files[i..];
        assert chunks + [chunk] == Chunks(files, size);
      }
      chunks := chunks + [chunk];
      i := i + size;
    }
  }

  /** Putting the chunks back together gives the selection, in order. */
  lemma {:induction false} ChunksFlatten(files: seq<string>, size: nat)
    requires size > 0
    ensures Flatten(Chunks(files, size)) == files
    decreases |files|
  {
    if |files| > size {
      ChunksFlatten(files[size..], size);
      assert files[..size] + files[size..] == files;
    } else if files != [] {
      assert Flatten([files]) == files + Flatten([]);
    }
  }

  /** Every chunk holds between one and `size` files, and only the last may hold
      fewer than `size`. */
  lemma {:induction false} ChunksSizes(files: seq<string>, size: nat)
    requires size > 0
    ensures var cs := Chunks(files, size);
            (forall i :: 0 <= i < |cs| ==> 0 < |cs[i]| <= size)
            && (forall i :: 0 <= i < |cs| - 1 ==> |cs[i]| == size)
    decreases |files|
  {
    if |files| > size {
      ChunksSizes(files[size..], size);
      var cs := Chunks(files, size);
      assert cs[1..] == Chunks(files[size..], size);
      forall i | 0 < i < |cs|
        ensures 0 < |cs[i]| <= size && (i < |cs| - 1 ==> |cs[i]| == size)
      {
        assert cs[i] == cs[1..][i - 1];
      }
    }
  }

  /** There are `ceil(n / size)` chunks. */
  lemma {:induction false} ChunksCount(files: seq<string>, size: nat)
    requires size > 0
    ensures |Chunks(files, size)| == (|files| + size - 1) / size
    decreases |files|
  {
    if |files| > size {
      ChunksCount(files[size..], size);
      var n := |files|;
      assert (n + size - 1) / size == (n - size + size - 1) / size + 1 by {
        DivShift(n - 1, size);
      }
    } else if files != [] {
      DivOne(|files| + size - 1, size);
    }
  }

  lemma DivShift(x: nat, size: nat)
    requires size > 0
    ensures (x + size) / size == x / size + 1
  {
    DivUnique(x + size, size, x / size + 1, x % size);
  }

  lemma DivOne(x: nat, size: nat)
    requires size <= x < 2 * size
    ensures x / size == 1
  {
    DivUnique(x, size, 1, x - size);
  }

  lemma {:induction false} MulAtLeast(d: nat, k: nat)
    requires k >= 1
    ensures d * k >= d
  {
    if k > 1 {
      MulAtLeast(d, k - 1);
      assert d * k == d * (k - 1) + d;
    }
  }

  /** Euclidean division has one quotient. */
  lemma DivUnique(x: int, d: int, q: int, r: int)
    requires d > 0 && x == d * q + r && 0 <= r < d
    ensures x / d == q
  {
    var q' := x / d;
    if q' > q {
      assert d * q' == d * q + d * (q' - q);
      MulAtLeast(d, q' - q);
      assert false;
    } else if q' < q {
      assert d * q == d * q' + d * (q - q');
      MulAtLeast(d, q - q');
      assert false;
    }
  }

  // ---------------------------------------------------------------------------
  // The sending loop

  /** `prompts[prompt_id]?.content || ''`. */
  function PromptText(prompts: map<string, Prompt>, id: string): string
  {
    if id in prompts then prompts[id].content else ""
  }

  /** The model of the chosen service. */
  function ModelFor(form: Form): string
  {
    if form.service == "gemini" then form.geminiModel else form.openaiModel
  }

  /** The body posted for one chunk. */
  function RequestFor(chunk: seq<string>, form: Form, prompts: map<string, Prompt>): Request
  {
    Request(Some("process_batch_chunk"), "", form.templateFilename, Some(chunk), form.service,
            Some(ModelFor(form)), PromptText(prompts, form.promptId), form.keepEnhanced)
  }

  /** `Math.round(i / len * 100)`, with the quotient taken exactly. */
  function Percent(i: nat, len: nat): nat
    requires len > 0
  {
    (200 * i + len) / (2 * len)
  }

  /** The events of chunk `i`: its progress, its request, and the pause when another
      chunk follows. */
  function Step(chunks: seq<seq<string>>, i: nat, form: Form, prompts: map<string, Prompt>): seq<Event>
    requires i < |chunks|
  {
    [Progress(Percent(i, |chunks|)), Send(RequestFor(chunks[i], form, prompts))]
    + (if i < |chunks| - 1 then [Pause] else [])
  }

  /** The events of chunks `i` onwards. */
  function Steps(chunks: seq<seq<string>>, i: nat, form: Form, prompts: map<string, Prompt>): seq<Event>
    decreases |chunks| - i
  {
    if i >= |chunks| then [] else Step(chunks, i, form, prompts) + Steps(chunks, i + 1, form, prompts)
  }

  /** Everything `handleProcess` does, in order. */
  function Timeline(chunks: seq<seq<string>>, form: Form, prompts: map<string, Prompt>): seq<Event>
  {
    [Progress(0)] + Steps(chunks, 0, form, prompts) + [Progress(100)]
  }

  /** What a reply adds to `allResults`: the records of a reply with `success`, and
      nothing for any other reply or for a request that threw. */
  function Harvest(reply: Option<Reply>): seq<FileResult>
  {
    if reply.Some? && reply.value.body.Chunk? then reply.value.body.results else []
  }

  /** The records gathered from chunks `i` onwards. */
  function Collected(chunks: seq<seq<string>>, i: nat, form: Form, prompts: map<string, Prompt>,
                     send: Request -> Option<Reply>): seq<FileResult>
    decreases |chunks| - i
  {
    if i >= |chunks| then []
    else Harvest(send(RequestFor(chunks[i], form, prompts))) + Collected(chunks, i + 1, form, prompts, send)
  }

  /** `handleProcess`. The source needs a positive batch size to leave its first
      loop; the form only offers 1, 2, 3 and 5. */
  method HandleProcess(selected: seq<string>, form: Form, prompts: map<string, Prompt>,
                       send: Request -> Option<Reply>) returns (events: seq<Event>, results: seq<FileResult>)
    requires form.batchSize > 0
    ensures events == Timeline(Chunks(selected, form.batchSize), form, prompts)
    ensures results == Collected(Chunks(selected, form.batchSize), 0, form, prompts, send)
  {
    events := [Progress(0)];
    results := [];
    var prompt := PromptText(prompts, form.promptId);
    var model := ModelFor(form);
    var chunks := Partition(selected, form.batchSize);
    var i := 0;
    while i < |chunks|
      invariant i <= |chunks|
      invariant events + Steps(chunks, i, form, prompts) == [Progress(0)] + Steps(chunks, 0, form, prompts)
      invariant results + Collected(chunks, i, form, prompts, send) == Collected(chunks, 0, form, prompts, send)
    {
      var request := Request(Some("process_batch_chunk"), "", form.templateFilename, Some(chunks[i]), form.service,
                             Some(model), prompt, form.keepEnhanced);
      assert request == RequestFor(chunks[i], form, prompts);
      var step, records := SendChunk(chunks, i, request, send);
      LoopStep(chunks, i, form, prompts, send, events, results, step, records);
      events := events + step;
      results := results + records;
      i := i + 1;
    }
    assert Steps(chunks, i, form, prompts) == [] && Collected(chunks, i, form, prompts, send) == [];
    assert events + [] == events && results + [] == results;
    events := events + [Progress(100)];
  }

  lemma LoopStep(chunks: seq<seq<string>>, i: nat, form: Form, prompts: map<string, Prompt>,
                 send: Request -> Option<Reply>, events: seq<Event>, results: seq<FileResult>,
                 step: seq<Event>, records: seq<FileResult>)
    requires i < |chunks|
    requires step == [Progress(Percent(i, |chunks|)), Send(RequestFor(chunks[i], form, prompts))]
                     + (if i < |chunks| - 1 then [Pause] else [])
    requires records == Harvest(send(RequestFor(chunks[i], form, prompts)))
    ensures (events + step) + Steps(chunks, i + 1, form, prompts) == events + Steps(chunks, i, form, prompts)
    ensures (results + records) + Collected(chunks, i + 1, form, prompts, send)
            == results + Collected(chunks, i, form, prompts, send)
  {
    assert step == Step(chunks, i, form, prompts);
  }

  /** One turn of the sending loop: report progress, post the chunk and await the
      reply, keep its records if it has `success`, and pause unless it was the last. */
  method SendChunk(chunks: seq<seq<string>>, i: nat, request: Request, send: Request -> Option<Reply>)
    returns (events: seq<Event>, records: seq<FileResult>)
    requires i < |chunks|
    ensures events == [Progress(Percent(i, |chunks|)), Send(request)] + (if i < |chunks| - 1 then [Pause] else [])
    ensures records == Harvest(send(request))
  {
    events := [Progress(Percent(i, |chunks|))];
    events := events + [Send(request)];
    var reply := send(request);
    records := [];
    if reply.Some? && reply.value.body.Chunk? {
      records := reply.value.body.results;
    }
    if i < |chunks| - 1 {
      events := events + [Pause];
    }
  }

  // ---------------------------------------------------------------------------
  // What the timeline and the gathered records promise

  /** The requests sent, in order. */
  function Sends(events: seq<Event>): seq<Request>
  {
    if events == [] then []
    else (if events[0].Send? then [events[0].request] else []) + Sends(events[1..])
  }

  /** The progress values shown, in order. */
  function Percents(events: seq<Event>): seq<nat>
  {
    if events == [] then []
    else (if events[0].Progress? then [events[0].percent] else []) + Percents(events[1..])
  }

  function Pauses(events: seq<Event>): nat
  {
    if events == [] then 0 else (if events[0] == Pause then 1 else 0) + Pauses(events[1..])
  }

  lemma {:induction false} FiltersAppend(a: seq<Event>, b: seq<Event>)
    ensures Sends(a + b) == Sends(a) + Sends(b)
    ensures Percents(a + b) == Percents(a) + Percents(b)
    ensures Pauses(a + b) == Pauses(a) + Pauses(b)
  {
    if a != [] {
      assert (a + b)[0] == a[0];
      assert (a + b)[1..] == a[1..] + b;
      FiltersAppend(a[1..], b);
    } else {
      assert a + b == b;
    }
  }

  lemma StepsFilters(chunks: seq<seq<string>>, i: nat, form: Form, prompts: map<string, Prompt>)
    requires i <= |chunks|
    ensures Sends(Steps(chunks, i, form, prompts))
            == seq(|chunks| - i, k requires 0 <= k < |chunks| - i => RequestFor(chunks[i + k], form, prompts))
    ensures Percents(Steps(chunks, i, form, prompts))
            == seq(|chunks| - i, k requires 0 <= k < |chunks| - i => Percent(i + k, |chunks|))
    ensures Pauses(Steps(chunks, i, form, prompts)) == if i < |chunks| then |chunks| - i - 1 else 0
  {
    StepsSends(chunks, i, form, prompts);
    StepsPercents(chunks, i, form, prompts);
    StepsPauses(chunks, i, form, prompts);
  }

  /** One chunk shows one progress value, sends one request, and pauses unless it is
      the last. */
  lemma StepFilters(chunks: seq<seq<string>>, i: nat, form: Form, prompts: map<string, Prompt>)
    requires i < |chunks|
    ensures Sends(Step(chunks, i, form, prompts)) == [RequestFor(chunks[i], form, prompts)]
    ensures Percents(Step(chunks, i, form, prompts)) == [Percent(i, |chunks|)]
    ensures Pauses(Step(chunks, i, form, prompts)) == if i < |chunks| - 1 then 1 else 0
  {
    var head := [Progress(Percent(i, |chunks|)), Send(RequestFor(chunks[i], form, prompts))];
    var pause: seq<Event> := if i < |chunks| - 1 then [Pause] else [];
    FiltersAppend(head, pause);
    assert Step(chunks, i, form, prompts) == head + pause;
    assert head[1..][1..] == [];
    assert Sends(head) == [RequestFor(chunks[i], form, prompts)];
    assert Percents(head) == [Percent(i, |chunks|)];
    assert Pauses(head) == 0;
    if pause != [] {
      assert pause[1..] == [];
    }
  }

  lemma {:induction false} StepsSends(chunks: seq<seq<string>>, i: nat, form: Form, prompts: map<string, Prompt>)
    requires i <= |chunks|
    ensures Sends(Steps(chunks, i, form, prompts))
            == seq(|chunks| - i, k requires 0 <= k < |chunks| - i => RequestFor(chunks[i + k], form, prompts))
    decreases |chunks| - i
  {
    if i < |chunks| {
      StepsSends(chunks, i + 1, form, prompts);
      StepFilters(chunks, i, form, prompts);
      FiltersAppend(Step(chunks, i, form, prompts), Steps(chunks, i + 1, form, prompts));
      var all := seq(|chunks| - i, k requires 0 <= k < |chunks| - i => RequestFor(chunks[i + k], form, prompts));
      var later := seq(|chunks| - i - 1, k requires 0 <= k < |chunks| - i - 1 => RequestFor(chunks[i + 1 + k], form, prompts));
      assert all == [RequestFor(chunks[i], form, prompts)] + later;
    }
  }

  lemma {:induction false} StepsPercents(chunks: seq<seq<string>>, i: nat, form: Form, prompts: map<string, Prompt>)
    requires i <= |chunks|
    ensures Percents(Steps(chunks, i, form, prompts))
            == seq(|chunks| - i, k requires 0 <= k < |chunks| - i => Percent(i + k, |chunks|))
    decreases |chunks| - i
  {
    if i < |chunks| {
      StepsPercents(chunks, i + 1, form, prompts);
      StepFilters(chunks, i, form, prompts);
      FiltersAppend(Step(chunks, i, form, prompts), Steps(chunks, i + 1, form, prompts));
      var all := seq(|chunks| - i, k requires 0 <= k < |chunks| - i => Percent(i + k, |chunks|));
      var later := seq(|chunks| - i - 1, k requires 0 <= k < |chunks| - i - 1 => Percent(i + 1 + k, |chunks|));
      assert all == [Percent(i, |chunks|)] + later;
    }
  }

  lemma {:induction false} StepsPauses(chunks: seq<seq<string>>, i: nat, form: Form, prompts: map<string, Prompt>)
    requires i <= |chunks|
    ensures Pauses(Steps(chunks, i, form, prompts)) == if i < |chunks| then |chunks| - i - 1 else 0
    decreases |chunks| - i
  {
    if i < |chunks| {
      StepsPauses(chunks, i + 1, form, prompts);
      StepFilters(chunks, i, form, prompts);
      FiltersAppend(Step(chunks, i, form, prompts), Steps(chunks, i + 1, form, prompts));
    }
  }

  /** The chunks are sent one at a time, each once, in index order. */
  lemma SendsInOrder(selected: seq<string>, form: Form, prompts: map<string, Prompt>)
    requires form.batchSize > 0
    ensures var chunks := Chunks(selected, form.batchSize);
            Sends(Timeline(chunks, form, prompts))
            == seq(|chunks|, k requires 0 <= k < |chunks| => RequestFor(chunks[k], form, prompts))
  {
    var chunks := Chunks(selected, form.batchSize);
    StepsFilters(chunks, 0, form, prompts);
    FiltersAppend([Progress(0)], Steps(chunks, 0, form, prompts));
    FiltersAppend([Progress(0)] + Steps(chunks, 0, form, prompts), [Progress(100)]);
  }

  /** Progress starts at 0, is reported before each chunk as the rounded share of
      chunks already done, and ends at 100. */
  lemma ProgressValues(chunks: seq<seq<string>>, form: Form, prompts: map<string, Prompt>)
    ensures Percents(Timeline(chunks, form, prompts))
            == [0] + seq(|chunks|, k requires 0 <= k < |chunks| => Percent(k, |chunks|)) + [100]
  {
    StepsFilters(chunks, 0, form, prompts);
    FiltersAppend([Progress(0)], Steps(chunks, 0, form, prompts));
    FiltersAppend([Progress(0)] + Steps(chunks, 0, form, prompts), [Progress(100)]);
    assert Percents([Progress(0)]) == [0];
    assert Percents([Progress(100)]) == [100];
  }

  /** The progress shown never goes down. */
  lemma ProgressNonDecreasing(chunks: seq<seq<string>>, form: Form, prompts: map<string, Prompt>)
    ensures var p := Percents(Timeline(chunks, form, prompts));
            forall j, k :: 0 <= j <= k < |p| ==> p[j] <= p[k]
  {
    ProgressValues(chunks, form, prompts);
    var p := Percents(Timeline(chunks, form, prompts));
    var n := |chunks|;
    forall j, k | 0 <= j <= k < |p|
      ensures p[j] <= p[k]
    {
      if 0 < j && k < |p| - 1 {
        assert p[j] == Percent(j - 1, n) && p[k] == Percent(k - 1, n);
        PercentMonotone(j - 1, k - 1, n);
      } else if 0 < j && j < |p| - 1 {
        assert p[j] == Percent(j - 1, n) && p[k] == 100;
        PercentAtMost(j - 1, n);
      } else if j == 0 {
        assert p[j] == 0;
      }
    }
  }

  lemma PercentMonotone(i: nat, j: nat, len: nat)
    requires len > 0 && i <= j
    ensures Percent(i, len) <= Percent(j, len)
  {
    DivMonotone(200 * i + len, 200 * j + len, 2 * len);
  }

  lemma DivMonotone(a: nat, b: nat, d: nat)
    requires d > 0 && a <= b
    ensures a / d <= b / d
  {
    var qa, qb := a / d, b / d;
    if qa > qb {
      assert d * qa == d * qb + d * (qa - qb);
      MulAtLeast(d, qa - qb);
      assert false;
    }
  }

  lemma PercentAtMost(i: nat, len: nat)
    requires i < len
    ensures Percent(i, len) <= 100
  {
    var x := 200 * i + len;
    assert x < 2 * len * 101;
    if x / (2 * len) > 100 {
      assert (2 * len) * (x / (2 * len)) >= (2 * len) * 101;
    }
  }

  /** The one-second pause comes only between two chunks: one fewer pause than
      chunks, and the last request is followed by nothing but the final progress. */
  lemma PausesBetween(chunks: seq<seq<string>>, form: Form, prompts: map<string, Prompt>)
    requires chunks != []
    ensures var t := Timeline(chunks, form, prompts);
            Pauses(t) == |chunks| - 1
            && t[|t| - 2] == Send(RequestFor(chunks[|chunks| - 1], form, prompts))
            && t[|t| - 1] == Progress(100)
  {
    StepsFilters(chunks, 0, form, prompts);
    FiltersAppend([Progress(0)], Steps(chunks, 0, form, prompts));
    FiltersAppend([Progress(0)] + Steps(chunks, 0, form, prompts), [Progress(100)]);
    LastStep(chunks, 0, form, prompts);
  }

  lemma {:induction false} LastStep(chunks: seq<seq<string>>, i: nat, form: Form, prompts: map<string, Prompt>)
    requires i < |chunks|
    ensures var s := Steps(chunks, i, form, prompts);
            |s| >= 2 && s[|s| - 1] == Send(RequestFor(chunks[|chunks| - 1], form, prompts))
    decreases |chunks| - i
  {
    if i < |chunks| - 1 {
      LastStep(chunks, i + 1, form, prompts);
    }
  }

  function Names(results: seq<FileResult>): seq<string>
  {
    seq(|results|, k requires 0 <= k < |results| => results[k].filename)
  }

  /** Every chunk from `i` on is answered with one record per file, each naming
      its file, as a successful `process_batch_chunk` reply is. */
  ghost predicate Answered(chunks: seq<seq<string>>, i: nat, form: Form, prompts: map<string, Prompt>,
                           send: Request -> Option<Reply>)
  {
    forall k :: i <= k < |chunks| ==> Names(Harvest(send(RequestFor(chunks[k], form, prompts)))) == chunks[k]
  }

  /** When every chunk is answered with one record per file, each naming its file
      (as a successful `process_batch_chunk` reply is), the gathered records name the
      selected files, each once, in the order they were selected. */
  lemma {:induction false} CollectedNames(chunks: seq<seq<string>>, i: nat, form: Form, prompts: map<string, Prompt>,
                                          send: Request -> Option<Reply>)
    requires i <= |chunks|
    requires Answered(chunks, i, form, prompts, send)
    ensures Names(Collected(chunks, i, form, prompts, send)) == Flatten(chunks[i..])
    decreases |chunks| - i
  {
    if i < |chunks| {
      CollectedNames(chunks, i + 1, form, prompts, send);
      assert chunks[i..][1..] == chunks[i + 1..];
      var h := Harvest(send(RequestFor(chunks[i], form, prompts)));
      var rest := Collected(chunks, i + 1, form, prompts, send);
      assert Names(h + rest) == Names(h) + Names(rest);
    } else {
      assert chunks[i..] == [];
    }
  }

  lemma AllSelectedReported(selected: seq<string>, form: Form, prompts: map<string, Prompt>,
                            send: Request -> Option<Reply>)
    requires form.batchSize > 0
    requires Answered(Chunks(selected, form.batchSize), 0, form, prompts, send)
    ensures Names(Collected(Chunks(selected, form.batchSize), 0, form, prompts, send)) == selected
  {
    var chunks := Chunks(selected, form.batchSize);
    CollectedNames(chunks, 0, form, prompts, send);
    assert chunks[0..] == chunks;
    ChunksFlatten(selected, form.batchSize);
  }

  /** A chunk whose request fails or whose reply lacks `success` adds nothing, and the
      loop goes on to the next chunk. */
  lemma {:induction false} FailedChunkSkipped(chunks: seq<seq<string>>, i: nat, form: Form, prompts: map<string, Prompt>,
                                              send: Request -> Option<Reply>)
    requires i < |chunks|
    requires send(RequestFor(chunks[i], form, prompts)).None?
             || !send(RequestFor(chunks[i], form, prompts)).value.body.Chunk?
    ensures Collected(chunks, i, form, prompts, send) == Collected(chunks, i + 1, form, prompts, send)
  {
    assert Harvest(send(RequestFor(chunks[i], form, prompts))) == [];
  }
}
