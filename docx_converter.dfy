/** `DocxConverter.toMarkdown`: DOCX bytes to HTML (mammoth), everything before the
    first level-one heading cut away, HTML to Markdown (turndown), then trimmed. The
    two libraries are parameters: only what the converter itself does is modelled. */
module DocxConverter {
  import opened Wrappers
  import opened Text
  import opened Storage

  const ConvertError := "Failed to convert DOCX to Markdown: "

  /** `/<h1[^>]*>/i` matches at `p`: `<`, `h` or `H`, `1`, then any run of
      characters other than `>` (line breaks included) closed by a `>`. */
  predicate H1At(html: string, p: nat)
  {
    p + 3 <= |html| && html[p] == '<' && (html[p + 1] == 'h' || html[p + 1] == 'H')
    && html[p + 2] == '1' && '>' in html[p + 3..]
  }

  /** Where the leftmost match at or after `from` starts. */
  function FirstH1(html: string, from: nat): (r: Option<nat>)
    ensures r.Some? ==> from <= r.value < |html|
    decreases |html| - from
  {
    if from >= |html| then None
    else if H1At(html, from) then Some(from)
    else FirstH1(html, from + 1)
  }

  /** The found position is a match and no earlier position is; without a position,
      there is no match at all. */
  lemma {:induction false} FirstH1Spec(html: string, from: nat)
    ensures FirstH1(html, from).Some? ==>
              var p := FirstH1(html, from).value;
              from <= p < |html| && H1At(html, p)
              && forall q :: from <= q < p ==> !H1At(html, q)
    ensures FirstH1(html, from).None? ==> forall q :: from <= q < |html| ==> !H1At(html, q)
    decreases |html| - from
  {
    if from < |html| && !H1At(html, from) {
      FirstH1Spec(html, from + 1);
      assert FirstH1(html, from) == FirstH1(html, from + 1);
      forall q | from <= q < from + 1
        ensures !H1At(html, q)
      {
        assert q == from;
      }
    }
  }

  /** `html.substring(h1Match.index)` when the heading is found, `html` otherwise. */
  function StripBeforeH1(html: string): string
  {
    match FirstH1(html, 0)
    case Some(p) => html[p..]
    case None => html
  }

  /** A match keeps matching once the text before it is cut away. */
  lemma H1AtSuffix(html: string, p: nat, q: nat)
    requires p <= q && H1At(html, q)
    ensures H1At(html[p..], q - p)
  {
    assert html[p..][q - p + 3..] == html[q + 3..];
  }

  /** What is kept is a suffix of the page; if the page has a level-one heading the
      suffix starts with the first one, and no heading starts in what was cut. */
  lemma StripSpec(html: string)
    ensures var r := StripBeforeH1(html);
            |r| <= |html| && r == html[|html| - |r|..]
            && (forall q :: 0 <= q < |html| - |r| ==> !H1At(html, q))
            && (r == html || H1At(r, 0))
            && (FirstH1(html, 0).None? ==> r == html)
  {
    FirstH1Spec(html, 0);
    if FirstH1(html, 0).Some? {
      H1AtSuffix(html, FirstH1(html, 0).value, FirstH1(html, 0).value);
    }
  }

  /** Cutting a second time changes nothing. */
  lemma StripIdempotent(html: string)
    ensures StripBeforeH1(StripBeforeH1(html)) == StripBeforeH1(html)
  {
    StripSpec(html);
    var r := StripBeforeH1(html);
    if r != html {
      assert H1At(r, 0);
      assert FirstH1(r, 0) == Some(0);
    }
  }

  /** `toMarkdown(buffer)`; a failure of either library is rethrown with the
      converter's prefix in front of the error's text. */
  function ToMarkdown(docx: seq<byte>, toHtml: seq<byte> -> Result<string, string>,
                      turndown: string -> Result<string, string>): (r: Result<string, string>)
    ensures r.Err? ==> StartsWith(r.error, ConvertError)
    ensures r.Ok? <==> toHtml(docx).Ok? && turndown(StripBeforeH1(toHtml(docx).value)).Ok?
  {
    match toHtml(docx)
    case Err(e) => Err(ConvertError + e)
    case Ok(html) =>
      match turndown(StripBeforeH1(html))
      case Err(e) => Err(ConvertError + e)
      case Ok(markdown) => Ok(Trim(markdown))
  }

  /** The Markdown handed back neither starts nor ends with whitespace, is what
      turndown made of the page from its first heading on with only whitespace
      removed around it, and converting it once more would trim nothing. */
  lemma ToMarkdownTrimmed(docx: seq<byte>, toHtml: seq<byte> -> Result<string, string>,
                          turndown: string -> Result<string, string>)
    requires ToMarkdown(docx, toHtml, turndown).Ok?
    ensures var m := ToMarkdown(docx, toHtml, turndown).value;
            var t := turndown(StripBeforeH1(toHtml(docx).value)).value;
            (m == [] || (!IsSpace(m[0]) && !IsSpace(m[|m| - 1])))
            && (exists i, j :: 0 <= i <= j <= |t| && m == t[i..j] && AllSpace(t[..i]) && AllSpace(t[j..]))
            && Trim(m) == m
  {
    var t := turndown(StripBeforeH1(toHtml(docx).value)).value;
    TrimBorders(t);
    TrimIdempotent(t);
    var i, j := TrimIsInfix(t);
  }
}
