/** The clean-up applied to the model's answer in
    backend/api/explanation/services/explanation_service.py: take the first
    fenced code block, then keep only the document body. */
module LatexExtraction {
  import opened Options
  import opened Text

  const FENCE := "```"
  const LATEX_TAG := "latex"
  const BEGIN_DOCUMENT := "\\begin{document}"
  const END_DOCUMENT := "\\end{document}"

  /** The first fence at or after `from`. */
  function FindFence(s: string, from: nat): (r: Option<nat>)
    ensures r.Some? ==> from <= r.value && OccursAt(s, FENCE, r.value)
    ensures r.Some? ==> forall k :: from <= k < r.value ==> !OccursAt(s, FENCE, k)
    ensures r.None? ==> forall k :: from <= k ==> !OccursAt(s, FENCE, k)
    decreases |s| - from
  {
    if from + |FENCE| > |s| then None
    else if OccursAt(s, FENCE, from) then Some(from)
    else FindFence(s, from + 1)
  }

  /** A fence cannot start inside the tag that may follow an opening fence. */
  lemma NoFenceInTag(s: string, p: nat)
    requires OccursAt(s, LATEX_TAG, p)
    ensures forall k :: p <= k < p + |LATEX_TAG| ==> !OccursAt(s, FENCE, k)
  {
    forall k | p <= k < p + |LATEX_TAG| ensures !OccursAt(s, FENCE, k) {
      assert s[k] == s[p..p + |LATEX_TAG|][k - p] == LATEX_TAG[k - p] != '`';
      if k + |FENCE| <= |s| {
        assert s[k..k + |FENCE|][0] == s[k];
      }
    }
  }

  /** The stripped group 1 of a DOTALL search for
      ```` ```(?:latex)?\s*\n?(.*?)\n?``` ````: the leftmost fence that has a
      later, non-overlapping fence opens the block; the block ends at the first
      such fence.  The whitespace the pattern skips around the group is exactly
      what stripping removes, so the group is stripped text between the fences
      (after the `latex` tag when present).  No second fence: no match. */
  function FencedBlock(s: string): (r: Option<string>)
    ensures r.Some? ==> exists i :: 0 <= i <= |s| - |FENCE| && OccursAt(s, FENCE, i)
    ensures r.Some? <==> FindFence(s, 0).Some? && FindFence(s, FindFence(s, 0).value + |FENCE|).Some?
    ensures r.Some? ==> Trim(r.value) == r.value
  {
    match FindFence(s, 0)
    case None => None
    case Some(open) =>
      match FindFence(s, open + |FENCE|)
      case None => None
      case Some(close) =>
        var start := if OccursAt(s, LATEX_TAG, open + |FENCE|) then open + |FENCE| + |LATEX_TAG| else open + |FENCE|;
        if OccursAt(s, LATEX_TAG, open + |FENCE|) then
          NoFenceInTag(s, open + |FENCE|);
          Some(Trim(s[start..close]))
        else
          Some(Trim(s[start..close]))
  }

  /** `re.match(cmd, stripped, re.IGNORECASE)` for a lower-case literal `cmd`:
      `stripped` begins with `cmd` up to letter case. */
  predicate StartsWithCommand(stripped: string, cmd: string) {
    StartsWith(Lower(stripped), cmd)
  }

  predicate IsPreambleCommand(stripped: string) {
    StartsWithCommand(stripped, "\\documentclass") ||
    StartsWithCommand(stripped, "\\usepackage") ||
    StartsWithCommand(stripped, "\\geometry") ||
    StartsWithCommand(stripped, "\\pagestyle") ||
    StartsWithCommand(stripped, "\\setlength")
  }

  /** How the scan treats a line: a preamble command, the `\begin{document}`
      line, the `\end{document}` line, or text. */
  datatype LineKind = PreambleLine | BeginLine | EndLine | TextLine

  function Kind(line: string): LineKind {
    var stripped := Trim(line);
    if IsPreambleCommand(stripped) then PreambleLine
    else if StartsWithCommand(stripped, BEGIN_DOCUMENT) then BeginLine
    else if StartsWithCommand(stripped, END_DOCUMENT) then EndLine
    else TextLine
  }

  /** A string cannot begin with two of the commands: they differ in their second letter. */
  lemma CommandsExclusive(low: string)
    ensures StartsWith(low, BEGIN_DOCUMENT) ==> !StartsWith(low, END_DOCUMENT)
    ensures StartsWith(low, BEGIN_DOCUMENT) || StartsWith(low, END_DOCUMENT) ==>
      !StartsWith(low, "\\documentclass") && !StartsWith(low, "\\usepackage") &&
      !StartsWith(low, "\\geometry") && !StartsWith(low, "\\pagestyle") &&
      !StartsWith(low, "\\setlength")
  {
    if StartsWith(low, BEGIN_DOCUMENT) {
      assert low[1] == BEGIN_DOCUMENT[1] == 'b';
    }
    if StartsWith(low, END_DOCUMENT) {
      assert low[1] == END_DOCUMENT[1] == 'e';
    }
    if |low| >= 2 {
      assert StartsWith(low, "\\documentclass") ==> low[1] == "\\documentclass"[1] == 'd';
      assert StartsWith(low, "\\usepackage") ==> low[1] == "\\usepackage"[1] == 'u';
      assert StartsWith(low, "\\geometry") ==> low[1] == "\\geometry"[1] == 'g';
      assert StartsWith(low, "\\pagestyle") ==> low[1] == "\\pagestyle"[1] == 'p';
      assert StartsWith(low, "\\setlength") ==> low[1] == "\\setlength"[1] == 's';
    }
  }

  /** Each kind is exactly the outcome of its own test. */
  lemma KindTests(line: string)
    ensures Kind(line) == PreambleLine <==> IsPreambleCommand(Trim(line))
    ensures Kind(line) == BeginLine <==> StartsWithCommand(Trim(line), BEGIN_DOCUMENT)
    ensures Kind(line) == EndLine <==> StartsWithCommand(Trim(line), END_DOCUMENT)
  {
    CommandsExclusive(Lower(Trim(line)));
  }

  /** The kind of each line, in order. */
  function Kinds(lines: seq<string>): (kinds: seq<LineKind>)
    ensures |kinds| == |lines|
    ensures forall i {:trigger Kind(lines[i])} :: 0 <= i < |lines| ==> kinds[i] == Kind(lines[i])
  {
    seq(|lines|, i requires 0 <= i < |lines| => Kind(lines[i]))
  }

  /** The lines the scan keeps when it starts inside (`inDocument`) or before
      the document, `kinds` giving each line's kind. */
  function ScanBody(lines: seq<string>, kinds: seq<LineKind>, inDocument: bool): seq<string>
    requires |kinds| == |lines|
    decreases |lines|
  {
    if lines == [] then []
    else if !inDocument && kinds[0] == PreambleLine then ScanBody(lines[1..], kinds[1..], false)
    else if !inDocument && kinds[0] == BeginLine then ScanBody(lines[1..], kinds[1..], true)
    else if kinds[0] == EndLine then []
    else (if inDocument then [lines[0]] else []) + ScanBody(lines[1..], kinds[1..], inDocument)
  }

  /** `_extract_document_body(latex_code)`: the body between `\begin{document}`
      and `\end{document}`, or the stripped input when that is empty. */
  function DocumentBody(code: string): string {
    if code == [] then code
    else
      var lines := Split(code, '\n');
      var body := ScanBody(lines, Kinds(lines), false);
      if body == [] then Trim(code)
      else
        var joined := Trim(Join(body, "\n"));
        if joined == [] then Trim(code) else joined
  }

  /** `_extract_document_body(latex_code)`: the scan, then the fall-back to the stripped input. */
  method ExtractDocumentBody(latexCode: string) returns (r: string)
    ensures r == DocumentBody(latexCode)
  {
    if latexCode == [] {
      return latexCode;
    }
    var lines := Split(latexCode, '\n');
    var bodyLines := ScanLines(lines, Kinds(lines));
    if bodyLines == [] {
      return Trim(latexCode);
    }
    var result := Trim(Join(bodyLines, "\n"));
    if result == [] {
      return Trim(latexCode);
    }
    return result;
  }

  /** The scan from line `i` on, by index: the loop's own view of `ScanBody`. */
  function ScanFrom(lines: seq<string>, kinds: seq<LineKind>, i: nat, inDocument: bool): seq<string>
    requires |kinds| == |lines| && i <= |lines|
    decreases |lines| - i
  {
    if i == |lines| then []
    else if !inDocument && kinds[i] == PreambleLine then ScanFrom(lines, kinds, i + 1, false)
    else if !inDocument && kinds[i] == BeginLine then ScanFrom(lines, kinds, i + 1, true)
    else if kinds[i] == EndLine then []
    else (if inDocument then [lines[i]] else []) + ScanFrom(lines, kinds, i + 1, inDocument)
  }

  /** Scanning from line `i` is scanning the suffix from line `i`. */
  lemma {:induction false} ScanFromIsScanBody(lines: seq<string>, kinds: seq<LineKind>, i: nat, inDocument: bool)
    requires |kinds| == |lines| && i <= |lines|
    ensures ScanFrom(lines, kinds, i, inDocument) == ScanBody(lines[i..], kinds[i..], inDocument)
    decreases |lines| - i
  {
    if i < |lines| {
      ScanFromIsScanBody(lines, kinds, i + 1, true);
      ScanFromIsScanBody(lines, kinds, i + 1, false);
      assert lines[i..][1..] == lines[i + 1..] && kinds[i..][1..] == kinds[i + 1..];
    }
  }

  /** The tests of the loop body on one stripped line (they cannot overlap, by
      `CommandsExclusive`, so their order does not matter).  `kinds` is the
      ghost record of every line's kind. */
  method ClassifyLine(lines: seq<string>, i: nat, ghost kinds: seq<LineKind>) returns (kind: LineKind)
    requires i < |lines| == |kinds|
    requires forall j {:trigger Kind(lines[j])} :: 0 <= j < |lines| ==> kinds[j] == Kind(lines[j])
    ensures kind == kinds[i]
  {
    var stripped := Trim(lines[i]);
    if IsPreambleCommand(stripped) {
      kind := PreambleLine;
    } else if StartsWithCommand(stripped, BEGIN_DOCUMENT) {
      kind := BeginLine;
    } else if StartsWithCommand(stripped, END_DOCUMENT) {
      kind := EndLine;
    } else {
      kind := TextLine;
    }
    assert kind == Kind(lines[i]);
  }

  /** The `for line in lines` loop of `_extract_document_body`, with its two
      flags. */
  method ScanLines(lines: seq<string>, ghost kinds: seq<LineKind>) returns (bodyLines: seq<string>)
    requires |kinds| == |lines|
    requires forall j {:trigger Kind(lines[j])} :: 0 <= j < |lines| ==> kinds[j] == Kind(lines[j])
    ensures bodyLines == ScanBody(lines, kinds, false)
  {
    bodyLines := [];
    var inPreamble := true;
    var inDocument := false;
    var i := 0;
    while i < |lines|
      invariant 0 <= i <= |lines|
      invariant inPreamble == !inDocument
      invariant bodyLines + ScanFrom(lines, kinds, i, inDocument) == ScanFrom(lines, kinds, 0, false)
    {
      var line := lines[i];
      var kind := ClassifyLine(lines, i, kinds);
      if inPreamble && kind == PreambleLine {
        // a preamble command before the document is skipped
      } else if inPreamble && kind == BeginLine {
        inPreamble := false;
        inDocument := true;
      } else if kind == EndLine {
        break;
      } else if inDocument || !inPreamble {
        ghost var rest := ScanFrom(lines, kinds, i + 1, inDocument);
        assert bodyLines + ([line] + rest) == (bodyLines + [line]) + rest;
        bodyLines := bodyLines + [line];
      }
      i := i + 1;
    }
    ScanFromIsScanBody(lines, kinds, 0, false);
    assert lines[0..] == lines && kinds[0..] == kinds;
  }

  /** `_extract_latex_from_response(response_text)`: `None` and the empty string
      come back unchanged; otherwise the fenced block, or the whole stripped
      text, reduced to its document body. */
  function ExtractLatexFromResponse(response: Option<string>): (r: Option<string>)
    ensures r.None? <==> response.None?
    ensures response.Some? && response.value == [] ==> r == response
  {
    if response.None? || response.value == [] then response
    else
      var extracted := match FencedBlock(response.value)
        case Some(block) => block
        case None => Trim(response.value);
      Some(DocumentBody(extracted))
  }

  /** The index of the first line of kind `k`, or `|kinds|`. */
  function FirstOfKind(kinds: seq<LineKind>, k: LineKind): (n: nat)
    ensures n <= |kinds|
    ensures n < |kinds| ==> kinds[n] == k
    ensures forall j :: 0 <= j < n ==> kinds[j] != k
  {
    if kinds == [] then 0 else if kinds[0] == k then 0 else 1 + FirstOfKind(kinds[1..], k)
  }

  /** Inside the document every line is kept verbatim, preamble commands
      included, up to the first `\end{document}` line. */
  lemma {:induction false} BodyIsPrefix(lines: seq<string>, kinds: seq<LineKind>)
    requires |kinds| == |lines|
    ensures ScanBody(lines, kinds, true) == lines[..FirstOfKind(kinds, EndLine)]
    decreases |lines|
  {
    if lines != [] && kinds[0] != EndLine {
      BodyIsPrefix(lines[1..], kinds[1..]);
      assert lines[..FirstOfKind(kinds, EndLine)] == [lines[0]] + lines[1..][..FirstOfKind(kinds[1..], EndLine)];
    }
  }

  /** Before the document, every line up to the first `\begin{document}` line is
      dropped, and that line too; an `\end{document}` line first leaves nothing. */
  lemma {:induction false} PreambleDropped(lines: seq<string>, kinds: seq<LineKind>)
    requires |kinds| == |lines|
    ensures FirstOfKind(kinds, EndLine) < FirstOfKind(kinds, BeginLine) || FirstOfKind(kinds, BeginLine) == |lines| ==>
      ScanBody(lines, kinds, false) == []
    ensures FirstOfKind(kinds, BeginLine) < |lines| && FirstOfKind(kinds, BeginLine) < FirstOfKind(kinds, EndLine) ==>
      ScanBody(lines, kinds, false) ==
      ScanBody(lines[FirstOfKind(kinds, BeginLine) + 1..], kinds[FirstOfKind(kinds, BeginLine) + 1..], true)
    decreases |lines|
  {
    if lines != [] {
      var b := FirstOfKind(kinds, BeginLine);
      var e := FirstOfKind(kinds, EndLine);
      if kinds[0] == PreambleLine || kinds[0] == TextLine {
        PreambleDropped(lines[1..], kinds[1..]);
        assert ScanBody(lines, kinds, false) == ScanBody(lines[1..], kinds[1..], false);
        assert b == 1 + FirstOfKind(kinds[1..], BeginLine);
        assert e == 1 + FirstOfKind(kinds[1..], EndLine);
        if b < |lines| {
          assert lines[1..][b - 1 + 1..] == lines[b + 1..];
          assert kinds[1..][b - 1 + 1..] == kinds[b + 1..];
        }
      } else if kinds[0] == BeginLine {
        assert b == 0;
      } else {
        assert e == 0;
      }
    }
  }

  /** The scan from before the document keeps the lines strictly between the
      first `\begin{document}` line and the next `\end{document}` line. */
  lemma ScanIsSlice(lines: seq<string>, kinds: seq<LineKind>)
    requires |kinds| == |lines|
    requires FirstOfKind(kinds, BeginLine) < FirstOfKind(kinds, EndLine)
    ensures ScanBody(lines, kinds, false)
         == lines[FirstOfKind(kinds, BeginLine) + 1..][..FirstOfKind(kinds[FirstOfKind(kinds, BeginLine) + 1..], EndLine)]
  {
    var b := FirstOfKind(kinds, BeginLine);
    PreambleDropped(lines, kinds);
    BodyIsPrefix(lines[b + 1..], kinds[b + 1..]);
  }

  /** Every kept line is a line of the input. */
  lemma {:induction false} ScanBodyKeepsLines(lines: seq<string>, kinds: seq<LineKind>, inDocument: bool)
    requires |kinds| == |lines|
    ensures forall j :: 0 <= j < |ScanBody(lines, kinds, inDocument)| ==> ScanBody(lines, kinds, inDocument)[j] in lines
    decreases |lines|
  {
    if lines != [] {
      ScanBodyKeepsLines(lines[1..], kinds[1..], true);
      ScanBodyKeepsLines(lines[1..], kinds[1..], false);
    }
  }

  /** Blank lines in, blank lines out. */
  lemma {:induction false} BlankLinesScan(lines: seq<string>, kinds: seq<LineKind>, inDocument: bool)
    requires |kinds| == |lines|
    requires forall j :: 0 <= j < |lines| ==> AllSpace(lines[j])
    ensures forall j :: 0 <= j < |ScanBody(lines, kinds, inDocument)| ==> AllSpace(ScanBody(lines, kinds, inDocument)[j])
    decreases |lines|
  {
    if lines != [] {
      BlankLinesScan(lines[1..], kinds[1..], true);
      BlankLinesScan(lines[1..], kinds[1..], false);
    }
  }

  /** A blank input has an empty body. */
  lemma BlankBodyEmpty(code: string)
    requires code != [] && AllSpace(code)
    ensures DocumentBody(code) == []
  {
    TrimEmptyIffAllSpace(code);
    var lines := Split(code, '\n');
    var body := ScanBody(lines, Kinds(lines), false);
    SplitKeepsAllSpace(code, '\n');
    BlankLinesScan(lines, Kinds(lines), false);
    assert AllSpace("\n");
    JoinKeepsAllSpace(body, "\n");
    TrimEmptyIffAllSpace(Join(body, "\n"));
  }

  /** The body is empty exactly when the input strips to nothing. */
  lemma DocumentBodyEmptyIff(code: string)
    ensures DocumentBody(code) == [] <==> AllSpace(code)
  {
    TrimEmptyIffAllSpace(code);
    if code != [] && AllSpace(code) {
      BlankBodyEmpty(code);
    }
  }

  /** The clean-up returns an empty string exactly for a blank answer (or a blank
      fenced block). */
  lemma ExtractEmptyIff(response: string)
    requires response != []
    ensures ExtractLatexFromResponse(Some(response)) == Some([])
        <==> match FencedBlock(response)
             case Some(block) => block == []
             case None => AllSpace(response)
  {
    match FencedBlock(response) {
      case Some(block) =>
        DocumentBodyEmptyIff(block);
        TrimEmptyIffAllSpace(block);
        assert block == Trim(block) by { TrimIdempotentOnBlock(response); }
      case None =>
        DocumentBodyEmptyIff(Trim(response));
        TrimEmptyIffAllSpace(response);
        TrimTrimmed(response);
    }
  }

  lemma TrimIdempotentOnBlock(response: string)
    requires FencedBlock(response).Some?
    ensures Trim(FencedBlock(response).value) == FencedBlock(response).value
  {
    var open := FindFence(response, 0).value;
    var close := FindFence(response, open + |FENCE|).value;
    var start := if OccursAt(response, LATEX_TAG, open + |FENCE|) then open + |FENCE| + |LATEX_TAG| else open + |FENCE|;
    if OccursAt(response, LATEX_TAG, open + |FENCE|) {
      NoFenceInTag(response, open + |FENCE|);
    }
    TrimTrimmed(response[start..close]);
  }

}
