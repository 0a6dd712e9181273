/**
 * Pull-request summaries (src/ai.js): the canned summary used when no usable API key is
 * configured, the per-file lines given to the language model, and the choice between the
 * canned summary, the model's reply and the fixed error text. The model itself is a
 * parameter: a function from the prompt's inputs to its reply.
 */
module Ai {
  import opened Wrappers
  import opened Text

  /** One changed file as the details carry it; GitHub's line counts are never negative. */
  datatype ChangedFile = ChangedFile(filename: string, status: string, additions: nat, deletions: nat)

  /** What a summary is made from: title, optional description, changed files. */
  datatype PrDetails = PrDetails(title: string, description: Option<string>, changedFiles: seq<ChangedFile>)

  // ---------------------------------------------------------------------------
  // The canned summary
  // ---------------------------------------------------------------------------

  /** `files.reduce((sum, file) => sum + file.additions, 0)`: a left fold. */
  function TotalAdditions(files: seq<ChangedFile>): nat
    decreases |files|
  {
    if files == [] then 0 else TotalAdditions(files[..|files| - 1]) + files[|files| - 1].additions
  }

  /** `files.reduce((sum, file) => sum + file.deletions, 0)`. */
  function TotalDeletions(files: seq<ChangedFile>): nat
    decreases |files|
  {
    if files == [] then 0 else TotalDeletions(files[..|files| - 1]) + files[|files| - 1].deletions
  }

  /** The totals are sums: the totals of two runs of files add up to the total of both. */
  lemma {:induction false} TotalsAdd(a: seq<ChangedFile>, b: seq<ChangedFile>)
    ensures TotalAdditions(a + b) == TotalAdditions(a) + TotalAdditions(b)
    ensures TotalDeletions(a + b) == TotalDeletions(a) + TotalDeletions(b)
    decreases |b|
  {
    if b == [] {
      assert a + b == a;
    } else {
      TotalsAdd(a, b[..|b| - 1]);
      assert (a + b)[..|a + b| - 1] == a + b[..|b| - 1];
    }
  }

  /** The file the summary names: the first file's name, or `project files` when there is no file or its name is empty. */
  function MainFile(files: seq<ChangedFile>): string {
    if |files| > 0 && files[0].filename != "" then files[0].filename else "project files"
  }

  /** What a canned summary says. */
  datatype MockFacts = MockFacts(fixesBug: bool, fileCount: nat, additions: nat, deletions: nat, focus: string)

  /** The facts the canned summary reports about `d`. */
  function FactsOf(d: PrDetails): MockFacts {
    MockFacts(
      Contains(Lower(d.title), "fix"),
      |d.changedFiles|,
      TotalAdditions(d.changedFiles),
      TotalDeletions(d.changedFiles),
      MainFile(d.changedFiles))
  }

  const FixPhrase := "fixes a bug"
  const FeaturePhrase := "implements a new feature"
  const FilesWord := " files with "
  const AdditionsWord := " additions and "
  const DeletionsWord := " deletions. The main changes focus on "

  function Opening(fixesBug: bool): string {
    "This PR " + (if fixesBug then FixPhrase else FeaturePhrase) + ". It modifies "
  }

  /** The summary text's three sentences, filled in with `f`. */
  function RenderMock(f: MockFacts): string {
    Opening(f.fixesBug) + (NatToString(f.fileCount) + (FilesWord + (NatToString(f.additions)
    + (AdditionsWord + (NatToString(f.deletions) + (DeletionsWord + (f.focus + ".")))))))
  }

  /** `generateMockSummary(prDetails)`. */
  function GenerateMockSummary(d: PrDetails): string {
    RenderMock(FactsOf(d))
  }

  /** Reads a run of digits at the front of `s`, and what follows it. */
  function ReadNumber(s: string): Option<(nat, string)> {
    var d := DigitPrefix(s);
    if d == [] then None else Some((DigitsValue(d), s[|d|..]))
  }

  /** Drops `p` from the front of `s`. */
  function Skip(p: string, s: string): Option<string> {
    if p <= s then Some(s[|p|..]) else None
  }

  /** Drops `word` from the front of `s`, then reads a number. */
  function ReadAfter(word: string, s: string): Option<(nat, string)> {
    match Skip(word, s)
    case None => None
    case Some(t) => ReadNumber(t)
  }

  /** Reads the last sentence's tail: the deletions word, the focus and the closing full stop. */
  function ReadFocus(s: string): Option<string> {
    match Skip(DeletionsWord, s)
    case None => None
    case Some(t) => if |t| > 0 && t[|t| - 1] == '.' then Some(t[..|t| - 1]) else None
  }

  /** Reads what follows the file count: the additions, the deletions and the focus. */
  function ReadTail(s: string): Option<(nat, nat, string)> {
    match ReadAfter(FilesWord, s)
    case None => None
    case Some((adds, s4)) =>
      match ReadAfter(AdditionsWord, s4)
      case None => None
      case Some((dels, s6)) =>
        match ReadFocus(s6)
        case None => None
        case Some(focus) => Some((adds, dels, focus))
  }

  /** Reads the facts back out of a canned summary; `None` for any other text. */
  function ReadMockSummary(s: string): Option<MockFacts> {
    var fixes := Opening(true) <= s;
    if !fixes && !(Opening(false) <= s) then None
    else
      match ReadNumber(s[|Opening(fixes)|..])
      case None => None
      case Some((files, s2)) =>
        match ReadTail(s2)
        case None => None
        case Some((adds, dels, focus)) => Some(MockFacts(fixes, files, adds, dels, focus))
  }

  lemma ReadNumberRendered(n: nat, t: string)
    requires t != [] && t[0] == ' '
    ensures ReadNumber(NatToString(n) + t) == Some((n, t))
  {
    DigitPrefixOf(NatToString(n), t);
    NatToStringValue(n);
    assert (NatToString(n) + t)[|NatToString(n)|..] == t;
  }

  lemma SkipSpliced(p: string, t: string)
    ensures Skip(p, p + t) == Some(t)
  {
    assert (p + t)[..|p|] == p;
    assert (p + t)[|p|..] == t;
  }

  lemma ReadAfterRendered(word: string, n: nat, t: string)
    requires t != [] && t[0] == ' '
    ensures ReadAfter(word, word + (NatToString(n) + t)) == Some((n, t))
  {
    SkipSpliced(word, NatToString(n) + t);
    ReadNumberRendered(n, t);
  }

  lemma OpeningsDiffer(s: string)
    ensures !(Opening(true) <= s && Opening(false) <= s)
  {
    assert Opening(true)[8] == 'f' && Opening(false)[8] == 'i';
  }

  lemma ReadFocusRendered(focus: string)
    ensures ReadFocus(DeletionsWord + (focus + ".")) == Some(focus)
  {
    var t := focus + ".";
    SkipSpliced(DeletionsWord, t);
    assert t[..|t| - 1] == focus;
  }

  lemma ReadTailRendered(adds: nat, dels: nat, focus: string)
    ensures ReadTail(FilesWord + (NatToString(adds) + (AdditionsWord + (NatToString(dels)
      + (DeletionsWord + (focus + ".")))))) == Some((adds, dels, focus))
  {
    var s6 := DeletionsWord + (focus + ".");
    var s4 := AdditionsWord + (NatToString(dels) + s6);
    ReadAfterRendered(FilesWord, adds, s4);
    ReadAfterRendered(AdditionsWord, dels, s6);
    ReadFocusRendered(focus);
  }

  /** Every canned summary can be read back: the text determines the facts it was made from. */
  lemma ReadRenderMock(f: MockFacts)
    ensures ReadMockSummary(RenderMock(f)) == Some(f)
  {
    var s2 := FilesWord + (NatToString(f.additions) + (AdditionsWord + (NatToString(f.deletions)
      + (DeletionsWord + (f.focus + ".")))));
    var s1 := NatToString(f.fileCount) + s2;
    var s := RenderMock(f);
    assert s == Opening(f.fixesBug) + s1;
    assert Opening(f.fixesBug) <= s;
    OpeningsDiffer(s);
    assert s[|Opening(f.fixesBug)|..] == s1;
    ReadNumberRendered(f.fileCount, s2);
    ReadTailRendered(f.additions, f.deletions, f.focus);
  }

  /**
   * The canned summary of `d` reports, readably: "fixes a bug" exactly when the lower-cased
   * title contains `fix` (else "implements a new feature"), the number of changed files, the
   * sums of their additions and deletions, and the first file's name (or `project files`).
   */
  lemma MockSummaryReports(d: PrDetails)
    ensures var f := ReadMockSummary(GenerateMockSummary(d));
      && f.Some?
      && (f.value.fixesBug <==> Contains(Lower(d.title), "fix"))
      && f.value.fileCount == |d.changedFiles|
      && f.value.additions == TotalAdditions(d.changedFiles)
      && f.value.deletions == TotalDeletions(d.changedFiles)
      && f.value.focus == (if d.changedFiles != [] && d.changedFiles[0].filename != ""
                           then d.changedFiles[0].filename else "project files")
  {
    ReadRenderMock(FactsOf(d));
  }

  // ---------------------------------------------------------------------------
  // The file lines given to the model
  // ---------------------------------------------------------------------------

  /** `${filename} (${status}, +${additions}, -${deletions})`. */
  function FileInfoLine(f: ChangedFile): string {
    f.filename + " (" + f.status + ", +" + NatToString(f.additions) + ", -" + NatToString(f.deletions) + ")"
  }

  /** The file lines, in input order, joined by newlines (`filesInfo`). */
  function FilesInfo(files: seq<ChangedFile>): string {
    Join(seq(|files|, i requires 0 <= i < |files| => FileInfoLine(files[i])), "\n")
  }

  lemma FileInfoLineOneLine(f: ChangedFile)
    requires '\n' !in f.filename && '\n' !in f.status
    ensures '\n' !in FileInfoLine(f)
  {
    assert '\n' !in NatToString(f.additions);
    assert '\n' !in NatToString(f.deletions);
  }

  /**
   * The files text holds one line per changed file, in input order: when no file name or
   * status contains a newline, splitting it at newlines gives exactly the files' lines; with
   * no files it is empty.
   */
  lemma FilesInfoLines(files: seq<ChangedFile>)
    requires forall f :: f in files ==> '\n' !in f.filename && '\n' !in f.status
    ensures files == [] ==> FilesInfo(files) == ""
    ensures files != [] ==> var lines := Split(FilesInfo(files), '\n');
      |lines| == |files| && forall i :: 0 <= i < |files| ==> lines[i] == FileInfoLine(files[i])
  {
    var lines := seq(|files|, i requires 0 <= i < |files| => FileInfoLine(files[i]));
    if files != [] {
      forall x | x in lines ensures '\n' !in x {
        var i :| 0 <= i < |lines| && lines[i] == x;
        FileInfoLineOneLine(files[i]);
      }
      SplitJoin(lines, '\n');
    }
  }

  // ---------------------------------------------------------------------------
  // Choosing a summary
  // ---------------------------------------------------------------------------

  const ApiKeyPlaceholder := "your_openai_api_key_here"
  const ErrorSummary := "Unable to generate summary due to an error."
  const NoDescription := "No description provided"

  /** The values the prompt template is filled with. */
  datatype PromptInputs = PromptInputs(title: string, description: string, files: string)

  /** What the model call gives back: text, or a failure (a thrown error or a reply without text). */
  datatype ModelReply = Reply(content: string) | Failure

  /** The title, the description or `No description provided` when missing or empty, and the files text. */
  function PromptInputsOf(d: PrDetails): PromptInputs {
    var description := if d.description.Some? && d.description.value != "" then d.description.value else NoDescription;
    PromptInputs(d.title, description, FilesInfo(d.changedFiles))
  }

  /** No usable key: missing, empty, or the placeholder from the sample configuration. */
  predicate UsesMock(apiKey: Option<string>) {
    apiKey.None? || apiKey.value == "" || apiKey.value == ApiKeyPlaceholder
  }

  /** `summarizePR(prDetails)` with the key read from the environment and the model as a parameter. */
  function SummarizePR(d: PrDetails, apiKey: Option<string>, model: PromptInputs -> ModelReply): string {
    if UsesMock(apiKey) then GenerateMockSummary(d)
    else match model(PromptInputsOf(d))
      case Failure => ErrorSummary
      case Reply(content) => Trim(content)
  }

  /**
   * Without a usable key the result is the canned summary whatever the model would answer,
   * so the model is never consulted.
   */
  lemma MockWithoutKey(d: PrDetails, apiKey: Option<string>, m1: PromptInputs -> ModelReply, m2: PromptInputs -> ModelReply)
    requires UsesMock(apiKey)
    ensures SummarizePR(d, apiKey, m1) == SummarizePR(d, apiKey, m2)
    ensures SummarizePR(d, apiKey, m1) == GenerateMockSummary(d)
    ensures ReadMockSummary(SummarizePR(d, apiKey, m1)) == Some(FactsOf(d))
  {
    ReadRenderMock(FactsOf(d));
  }

  /** With a usable key, a failing model call yields exactly the fixed error text. */
  lemma LiveFailure(d: PrDetails, apiKey: Option<string>, model: PromptInputs -> ModelReply)
    requires !UsesMock(apiKey) && model(PromptInputsOf(d)).Failure?
    ensures SummarizePR(d, apiKey, model) == ErrorSummary
  {
  }

  /**
   * With a usable key, a reply yields its text with the white space around it removed and
   * nothing else changed.
   */
  lemma LiveReply(d: PrDetails, apiKey: Option<string>, model: PromptInputs -> ModelReply, c: string)
    requires !UsesMock(apiKey) && model(PromptInputsOf(d)) == Reply(c)
    ensures var r := SummarizePR(d, apiKey, model);
      var i := |c| - |TrimStart(c)|;
      i + |r| <= |c| && r == c[i..i + |r|]
      && AllIn(c, 0, i, IsSpace) && AllIn(c, i + |r|, |c|, IsSpace)
      && (r == [] || (!IsSpace(r[0]) && !IsSpace(r[|r| - 1])))
  {
    assert SummarizePR(d, apiKey, model) == Trim(c);
    TrimKeepsMiddle(c);
  }
}
