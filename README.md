# repo-change-watcher, modelled in Dafny

repo-change-watcher is a GitHub Action, also runnable from the command line, that looks at the
pull requests merged into a repository. This project models its four source files:

- `src/index.js` is the command-line and input shell. It parses `--flag=value` and
  `--flag value` arguments, and lets them override the `INPUT_*` environment variables. It
  also provides the local stand-in for the Actions input lookup, the input defaults, and the
  `owner/repo` check at the start of `main`.
- `src/github.js` is the selection inside `getImportantPRs`. It keeps the pull requests
  merged inside the reporting window that mention an important keyword in their title or
  body, and projects each one to a small record.
- `src/ai.js` covers pull-request summaries. This is the canned summary used without a usable
  API key, the per-file lines handed to the language model, and the choice between the canned
  summary, the model's trimmed reply and the fixed error text.
- `src/notify.js` builds the notification e-mail. It writes an HTML list, one item per pull
  request in order, between a fixed header and footer, and wraps it in a message record.

The modules are:

- `Wrappers` holds `Option` and `Result`.
- `Text` holds the JavaScript string primitives the code relies on:
  - ASCII case mapping, `includes`, and one-character `split`;
  - `join`, and `trim` with ECMAScript's white-space set;
  - decimal rendering of a number in a template string, and `parseInt(s, 10)`.
- `Cli`, `GitHub`, `Ai` and `Notify` follow the four source files.

Pure code is modelled as functions with lemmas about them. The code that changes state in
place is modelled imperatively:

- The writes to `process.env` are `Cli.ProcessEnv`, a class holding the environment as a map.
- The `+=` loop that builds the e-mail body is `Notify.BuildEmailContent` and
  `Notify.AppendItems`. These methods are proved against the function `Notify.EmailBody`.

Some parts of the system become parameters or values:

- The language model is a function parameter from the prompt's inputs to a reply.
- The reporting window is two integer timestamps.
- The environment is a map from variable names to values.

## Model

| member | source | states |
|---|---|---|
| Text.Lower | src/github.js:49-54 | `toLowerCase` on ASCII letters: no upper-case letter is left, every other character is unchanged, and each character keeps its letter |
| Text.Upper | src/index.js:111 | `toUpperCase` on ASCII letters: no lower-case letter is left, every other character is unchanged, and each character keeps its letter |
| Text.ReplaceChar | src/index.js:111 | `replace(/-/g, '_')`: every `-` becomes `_`, so none is left, and every other character stays where it was |
| Text.Contains | src/github.js:52-55 | `includes`, by recursion on the text; `ContainsIff` states its meaning, an occurrence at some index |
| Text.ContainsIff | src/github.js:53-54 | `includes` holds exactly when the searched text occurs at some index |
| Text.OccursAtStart | src/github.js:53-54 | occurring at index 0 is being a prefix |
| Text.Split | src/index.js:19 | splitting on one character gives at least one field, and no field contains the separator |
| Text.Before | src/index.js:19 | the text before the first separator is a separator-free prefix that ends at the end or at a separator |
| Text.Join | src/ai.js:34-36 | `join`; it undoes `Split` (`JoinSplit`), and `Split` undoes it on separator-free fields (`SplitJoin`) |
| Text.SplitHasSecondField | src/index.js:15-19 | a second field exists exactly when the separator occurs, so the `includes('/')` check guards the destructuring |
| Text.SplitHead | src/index.js:19 | the first field is the text before the first separator, and the other fields split what follows it |
| Text.BeforeTwice | src/index.js:19 | the first field, the separator and the second field form a prefix of the text, followed by the end or by another separator |
| Text.SplitAfterField | src/index.js:51 | a separator-free field followed by the separator splits off intact |
| Text.SplitWithoutSeparator | src/index.js:51 | text without the separator is a single field |
| Text.JoinSplit | src/index.js:19 | joining the fields of a split with the separator gives back the text |
| Text.SplitJoin | src/ai.js:34-36 | splitting separator-free fields joined by the separator gives back the fields |
| Text.ConcatAppend | src/notify.js:17-25 | concatenating two runs of parts is concatenating their concatenations |
| Text.ConcatStep | src/notify.js:17-25 | one more appended part extends the concatenation by that part |
| Text.ConcatPart | src/notify.js:17-25 | each part stands in the concatenation right after the parts before it |
| Text.ConcatPartFramed | src/notify.js:13-27 | the same holds when the concatenation sits between a prefix and a suffix |
| Text.Trim | src/ai.js:45 | `trim`: white space dropped at the front, then at the back; `TrimKeepsMiddle` states what it keeps and removes |
| Text.LeadingCount | src/ai.js:45 | the count of leading characters that pass a test covers exactly the run before the first one that fails |
| Text.TrailingCount | src/ai.js:45 | the count of trailing characters that pass a test covers exactly the run after the last one that fails |
| Text.DropBothEnds | src/ai.js:45 | dropping at both ends keeps a contiguous middle part that neither starts nor ends with a dropped character, and drops only such characters |
| Text.TrimKeepsMiddle | src/ai.js:45 | `trim` keeps a contiguous middle part that neither starts nor ends with white space, and removes only white space around it |
| Text.ParseInt | src/index.js:10 | `parseInt(s, 10)`: leading white space, an optional sign, the longest digit run, `None` for `NaN`; its results are stated by `ParseIntDigitsFirst` and `ParseIntRendered` |
| Text.NatToString | src/ai.js:63 | a rendered non-negative number is a non-empty run of digits with no leading zero |
| Text.DigitPrefix | src/index.js:10 | the digit run `parseInt` reads is the longest all-digit prefix |
| Text.NatToStringValue | src/ai.js:63 | reading the rendered digits back gives the number |
| Text.DigitPrefixOf | src/index.js:10 | the digit run at the front of a number's digits followed by a non-digit is exactly those digits |
| Text.ParseIntDigitsFirst | src/index.js:10 | text that starts with a digit parses to the value of its leading digits |
| Text.ParseIntRendered | src/index.js:10 | `parseInt` gives back a rendered number, also when non-digit text follows it, so the default `'1'` parses to 1 |
| Cli.GetArg | src/index.js:47-61 | `getArg`: there is no value exactly when no argument starts with `flag=` and the flag is absent or its first occurrence is last; a value from a `flag=` argument contains no `=`; which value it is, is stated by `GetArgKeyValue` and `GetArgSeparate` |
| Cli.ReadCliArgs | src/index.js:64-69 | `cliArgs`, one `getArg` per option: arguments that do not start with `--` set no option |
| Cli.FirstWithPrefix | src/index.js:49 | `find` with `startsWith`: the first argument with the prefix, or none when no argument has it |
| Cli.IndexOf | src/index.js:55 | `indexOf`: the first index holding the flag, -1 exactly when it is absent |
| Cli.GetArgKeyValue | src/index.js:49-52 | the first `flag=` argument decides, even after an earlier bare `flag`; its value is the text between the first and second `=`, and the rest is lost |
| Cli.GetArgSeparate | src/index.js:55-60 | without a `flag=` argument, the value is the element right after the first `flag`; it is null when the flag is absent or last |
| Cli.InputKey | src/index.js:111 | the variable the lookup reads; `InputKeySame` states which names share one, and `MainInputKeys` gives the four of `main` |
| Cli.InputValue | src/index.js:111 | the variable's value, `None` for `undefined`; `GetInput`'s contract states the lookup built on it |
| Cli.InputKeySame | src/index.js:111 | two input names read the same variable exactly when they agree character by character once `-` becomes `_` and letters are upper-cased |
| Cli.GetInput | src/index.js:110-116 | a required input that is missing or empty fails with `Input required and not supplied: <name>`; otherwise the value, or `''` |
| Cli.Override | src/index.js:80 | a non-null, non-empty value replaces the variable; otherwise the environment is unchanged; other variables are untouched |
| Cli.WithCliArgs | src/index.js:80-83 | each of the four variables holds its truthy command-line value, or keeps its old state (present with the same value, or absent); every other variable is untouched |
| Cli.CliOverridesEnv | src/index.js:80-83 | after the four assignments, each input `main` reads yields the command-line value when truthy and the environment's otherwise; other variables are unchanged |
| Cli.MainInputKeys | src/index.js:111 | the variables the assignments write are exactly the ones the lookup reads for `main`'s four inputs |
| Cli.ProcessEnv.Prioritize | src/index.js:80 | one assignment changes `process.env` exactly as `Override` says |
| Cli.ProcessEnv.ApplyCliArgs | src/index.js:80-83 | the four assignments, in source order, leave `process.env` as `WithCliArgs` says |
| Cli.ProcessEnv.Launch | src/index.js:64-83 | a local run reads the options, applies them to `process.env`, and resolves `main`'s inputs from the result |
| Cli.ResolveInputs | src/index.js:9-19 | `main`'s opening succeeds exactly when the target and the output file are non-empty and the target contains `/`; `ResolveInputsErrors` and `ResolveInputsDefaults` state the errors and the values |
| Cli.ParseRepository | src/index.js:15-17 | a target without `/` fails with the fixed message, and only such a target fails |
| Cli.ParseRepositoryFields | src/index.js:19 | the owner is the text before the first `/`, and the repository name the text between it and the next `/` |
| Cli.ParseRepositoryParts | src/index.js:19 | owner and name contain no `/`; `owner/name` is a prefix of the target; anything after a further `/` is ignored |
| Cli.ResolveInputsErrors | src/index.js:9-17 | the errors of `main`'s opening come in order: missing target, then missing output file, then a target without `/`; there are no others |
| Cli.ResolveInputsDefaults | src/index.js:9-19 | inputs are taken as read; the day count is 1 when that input is missing or empty, else `parseInt` of it; the format is `markdown` when missing or empty; the owner and name are the target's first two `/`-separated fields |
| GitHub.MergedInWindow | src/github.js:41-44 | the `mergedYesterday` test: `merged`, a merge time, and the time inside the window; `MergedInWindowOf` states what the filter keeps with it |
| GitHub.MentionsKeyword | src/github.js:49-55 | the keyword test: some lower-cased keyword occurs in the lower-cased title or body, a missing body being `''`; `MentioningOf` states what the filter keeps with it |
| GitHub.MergedInWindowOf | src/github.js:40-45 | the window filter keeps, in order and as often as fetched, exactly the pull requests merged, with a merge time, inside the window with both bounds included |
| GitHub.MentioningOf | src/github.js:48-56 | the keyword filter keeps, in order, exactly those where some lower-cased keyword occurs in the lower-cased title or body; a missing body is `''` |
| GitHub.Project | src/github.js:58-64 | the `map` callback; `ProjectFields` states the record's fields |
| GitHub.KeptPRs | src/github.js:40-56 | the two filters in sequence; `TwoFiltersAreOne`, `ImportantOfSpec` and `GetImportantPRsSpec` state what they keep and in what order |
| GitHub.GetImportantPRs | src/github.js:58-64 | one record per kept pull request, in order, each projected from it |
| GitHub.KeptAreMergedInWindow | src/github.js:40-48 | every kept pull request passed the window test, so it has a merge time |
| GitHub.TwoFiltersAreOne | src/github.js:40-56 | the two filters in sequence keep the same list as a single pass with both tests |
| GitHub.ImportantOfSpec | src/github.js:40-56 | the single pass keeps an order-preserving subsequence with exactly the important pull requests, each as often as fetched |
| GitHub.SubsequenceNotLonger | src/github.js:40-56 | an order-preserving subsequence is never longer than its source |
| GitHub.GetImportantPRsSpec | src/github.js:40-64 | the records project, in order, an order-preserving subsequence of the fetched list that holds exactly the important pull requests; never more records than fetched |
| GitHub.ProjectFields | src/github.js:58-64 | each record is number, title, `html_url`, `user.login` and `merged_at` of its pull request |
| GitHub.NoKeywordsNoResult | src/github.js:52-55 | an empty keyword list selects nothing |
| GitHub.MentionAllWhenEmptyKeyword | src/github.js:48-56 | with an empty keyword present, the keyword filter keeps everything |
| GitHub.EmptyKeywordKeepsAllMerged | src/github.js:40-56 | with an empty keyword present, the selection is exactly the window filter's result |
| GitHub.UnmergedNeverSelected | src/github.js:42 | if no fetched pull request has `merged` set to true, the result is empty, whatever the merge times |
| Ai.TotalAdditions | src/ai.js:59 | the additions `reduce`, a left fold from 0; `TotalsAdd` states that it adds up over runs of files |
| Ai.TotalDeletions | src/ai.js:60 | the deletions `reduce`, a left fold from 0; `TotalsAdd` states that it adds up over runs of files |
| Ai.MainFile | src/ai.js:64 | the first file's name, or `project files` when there is no file or its name is empty |
| Ai.FactsOf | src/ai.js:58-64 | what the canned summary reports; `MockSummaryReports` states each fact in terms of the details |
| Ai.RenderMock | src/ai.js:62-64 | the summary's three sentences; `ReadRenderMock` states that the text determines the facts |
| Ai.GenerateMockSummary | src/ai.js:57-65 | `generateMockSummary`; `MockSummaryReports` states what its text reports |
| Ai.TotalsAdd | src/ai.js:59-60 | the additions and deletions totals are sums: the totals of two runs of files add up |
| Ai.ReadRenderMock | src/ai.js:62-64 | the canned summary text determines the facts it was made from: reading it back gives them |
| Ai.MockSummaryReports | src/ai.js:57-65 | the canned summary reports: "fixes a bug" exactly when the lower-cased title contains `fix`; the file count; the sums of additions and deletions; the first file's name, or `project files` |
| Ai.FileInfoLine | src/ai.js:35 | one file's line; `FileInfoLineOneLine` and `FilesInfoLines` state its place in the files text |
| Ai.FilesInfo | src/ai.js:34-36 | `filesInfo`; `FilesInfoLines` states its lines |
| Ai.FileInfoLineOneLine | src/ai.js:35 | a file line has no line break when the file name and status have none |
| Ai.FilesInfoLines | src/ai.js:34-36 | the files text has one `name (status, +adds, -dels)` line per file, in order, joined by newlines; it is empty with no files |
| Ai.PromptInputsOf | src/ai.js:38-42 | the template values: the title, the description or `No description provided` when missing or empty, and the files text |
| Ai.UsesMock | src/ai.js:29 | no usable key: missing, empty, or the placeholder |
| Ai.SummarizePR | src/ai.js:26-50 | `summarizePR`; `MockWithoutKey`, `LiveFailure` and `LiveReply` state its three outcomes |
| Ai.MockWithoutKey | src/ai.js:29-31 | with a missing, empty or placeholder key, the result is exactly the canned summary of the details, whatever the model would answer, and it reads back to the details' facts |
| Ai.LiveFailure | src/ai.js:46-48 | with a usable key, a failing model call yields exactly `Unable to generate summary due to an error.` |
| Ai.LiveReply | src/ai.js:44-45 | with a usable key, the result is the reply with the white space around it removed and nothing else changed |
| Notify.ItemParts | src/notify.js:18-24 | the pieces of one item template, in order |
| Notify.ItemHtml | src/notify.js:18-24 | one list item; `ItemShowsFields` states what it shows |
| Notify.EmailBody | src/notify.js:13-27 | the body the loop builds; `BuildEmailContent` is proved to build it, and `EmailBodyFrame`, `ItemsInOrder` and `ItemsSplit` state its shape |
| Notify.Items | src/notify.js:17-25 | one list item per pull request |
| Notify.BuildEmailContent | src/notify.js:13-27 | the built text is the e-mail body: header, then the items in order, then `</ul>` |
| Notify.AppendItems | src/notify.js:17-25 | the loop appends, in order, the list item of every pull request to the text so far |
| Notify.SendNotification | src/notify.js:30-35 | the message's `html` is the body, its subject is the fixed subject, and its addresses come from the environment |
| Notify.EmailBodyFrame | src/notify.js:13-27 | the body starts with the heading, the paragraph and `<ul>`, and ends with `</ul>`; with no pull requests it is exactly those |
| Notify.ItemsInOrder | src/notify.js:17-25 | the item of the i-th pull request stands right after the header and the items of the ones before it |
| Notify.ItemsSplit | src/notify.js:17-25 | the items of two runs of pull requests are those of the first followed by those of the second |
| Notify.ItemShowsFields | src/notify.js:18-24 | each item shows the repository in bold, the link, the number and title, and the author verbatim, without escaping; a missing repository shows as `undefined` |

## Left out

- The change-history merge engine is not part of this model. That engine reads the output
  file, removes duplicates, groups by date, and renders markdown, JSON or YAML.
  `src/index.js:3` imports `getMergedPRs` and `writePRChanges`, but `src/github.js` exports
  only `getImportantPRs`. So the rest of `main` (lines 21-34) has nothing to call.
- The pull-request listing call (`octokit.pulls.list`, `src/github.js:30-37`) is left out. The
  fetched list is a parameter. Only the first page of up to 100 closed pull requests would be
  seen.
- The computation of "yesterday" from the local clock (`src/github.js:17-27`) is left out. The
  window bounds are given integer timestamps. Date strings that do not parse are not modelled.
- The language model and the prompt template (`src/ai.js:1-19`, `src/ai.js:38-44`) are left
  out. The model is a function from the template's three inputs to a reply.
- A reply whose content is not a string makes `trim` throw, which the code catches. It is
  modelled as `Failure`.
- The mail service (`src/notify.js:1-4`, `src/notify.js:38`) is left out. The model stops at
  the message record handed to it.
- The module-level API client setup is left out.
- Console output is left out, and so is the configuration report of `src/index.js:86-106` with
  the `envBackup` record (lines 72-77) that only feeds it.
- `core.setOutput` and `core.setFailed`, `process.exit`, `dotenv` and `async`/`await`
  sequencing are left out.
- The real Actions input lookup, used when `GITHUB_ACTIONS` is set, is left out. Only the local
  stand-in of `src/index.js:110-116` is modelled.
- Text.Lower: case mapping covers ASCII letters only. Unicode case mapping is not modelled.
- Text.Upper: ASCII letters only. JavaScript's `toUpperCase` also maps other letters, for
  instance `é` to `É` and `ß` to `SS`; the model leaves them as they are.
- Cli.InputKeySame: its "exactly when" holds for the ASCII-only key. With full Unicode
  upper-casing, more names would share one variable, for instance through `ß` becoming `SS`.
- Text.ParseInt does not model the loss of precision of numbers past 2^53. The line counts,
  their sums and rendered numbers are unbounded naturals for the same reason.
- Text.ParseIntRendered: `parseInt` is characterised on rendered numbers and on text starting
  with a digit. Text starting with a sign or with white space is modelled in `ParseInt` but no
  lemma states its result.
- Summaries are assumed to come from well-formed details: the title is always a string and line
  counts are never negative. So `generateMockSummary` never throws into the error branch.
- Ai.MockSummaryReports does not state the summary text itself. It states that the text reads
  back to the facts listed.
- Notify: only the repository field may be missing; the url, number, title and author are
  always present.
