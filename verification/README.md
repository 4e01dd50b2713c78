# connect-program-import, modelled in Dafny

The program reads a wiki table of proposed conference talks and opens one
GitHub issue per talk. This project models its core, `import.go`:

- **Row extraction** (`ImportTable`): every row of the matched tables is read
  in document order. The first five cells become a talk's title, audience,
  format, suggester and presenter. A missing cell reads as empty text. The
  row is kept only when its title text is non-empty. Nothing is trimmed, so a
  title made of blanks counts as non-empty.
- **Body rendering and request building** (`Talk.String`, `NewIssue`): the
  body is a fixed six-line template. The request carries the talk's title and
  that body, and nothing else.
- **Submission** (the loop of `CreateIssues`): one creation call per talk, in
  order, stopping at the first call that fails.

Modules:

- `Extract` (table.dfy): rows, talks from rows, the specification `ImportRows`
  and the method `ImportTable` proved equal to it.
- `Talks` (talk.dfy): the `Talk` record, `Render`, and `ParseBody`, which reads
  a body back into a talk and serves as Render's inverse.
- `Issues` (issues.dfy): `IssueRequest`, `NewIssue`, and the method
  `CreateIssues`, proved against `FirstFailure` and `Attempts`.
- `Lines` (lines.dfy) and `Wrappers` (wrappers.dfy) are helpers: splitting and
  joining lines, and `Option`.

Inputs that the program gets from libraries are parameters here:

- The page is given as its matched tables. A table is the sequence of its
  body rows (`tbody tr`), and a row is the sequence of the texts of its cells.
- The GitHub client is a `Tracker`: a function from the call's 0-based
  sequence number and its request to `Created(issue)` or `Failed(message)`.
- The process exit on a failed call becomes the `failure` result of
  `CreateIssues`. The printed `ISSUE` confirmations become its `created`
  result.

A Dafny function always gives the same result for the same talk, so
rendering a talk twice gives identical text by construction.

## Model

| member | source | states |
|---|---|---|
| `Talks.Render` | import.go:20-22 | The body begins with the title and ends with the audience. Its length is the sum of the five field lengths plus the 48 characters of the template. |
| `Talks.RenderLines` | import.go:20-22 | If no field holds a line break, the body is exactly six lines, in this order: the title, an empty line, then `Suggested by: `, `Presenter: `, `Format: ` and `Audience: ` each followed by its field. There is no trailing line break. |
| `Talks.ParseRender` | import.go:20-22 | If no field holds a line break, reading the body back gives the original talk. |
| `Talks.RenderParse` | import.go:20-22 | Any body that reads back as a talk is exactly that talk's rendering, so the template is the only shape accepted. |
| `Talks.RenderInjective` | import.go:20-22 | Different talks whose fields hold no line break get different bodies. |
| `Talks.RenderAmbiguousWithNewlines` | import.go:20-22 | Without that restriction, different talks can share one body. An audience `x`, a line break, `Audience: ` and `y` renders like audience `y` under a format that ends in a line break, `Audience: ` and `x`. |
| `Extract.ToTalk` | import.go:32-37 | The talk's fields, in column order, are the row's first five cells. Missing cells are padded with empty text and further cells are ignored. The title is empty iff the row has no cells or its first cell is empty. |
| `Extract.ImportRows` | import.go:29-42 | There are at most as many talks as rows, and every talk has a non-empty title. |
| `Extract.KeptIndices` | import.go:31-40 | The kept positions are strictly increasing and within the rows. A position is kept iff its row's first cell is non-empty. |
| `Extract.ImportRowsSelects` | import.go:31-41 | There are as many talks as kept positions, and the j-th talk is the talk of the row at the j-th kept position. So each titled row gives exactly one talk, in row order, with no duplicates, and the number of talks is the number of titled rows. |
| `Extract.ImportRowsAppend` | import.go:31-41 | Importing two consecutive runs of rows gives the first run's talks followed by the second's. |
| `Extract.ImportTablesInOrder` | import.go:26-31 | Importing all rows of all matched tables gives each table's talks in turn, in table order. |
| `Extract.ImportTable` | import.go:29-43 | The row-by-row loop that appends a talk per titled row returns exactly `ImportRows` of all rows in document order. |
| `Issues.NewIssue` | import.go:80-86 | The request title is the talk's title and the body is its rendering. Labels, assignee, state, milestone and assignees are all unset. |
| `Issues.NewIssueCarriesTalk` | import.go:80-86 | If no field holds a line break, the request's body reads back as the whole talk. |
| `Issues.FirstFailure` | import.go:91-97 | This is the position of a failing submission that every earlier submission precedes successfully. It is absent iff every submission succeeds. |
| `Issues.FirstFailureAt` | import.go:91-97 | A failing submission whose predecessors all succeed is the first failure. |
| `Issues.AttemptsCount` | import.go:91-99 | If call M (0-based) is the first to fail, a run makes exactly M + 1 calls. If none fails, it makes one call per talk. |
| `Issues.CreateIssues` | import.go:88-100 | The k-th call sends `NewIssue` of the k-th talk. The number of calls is `Attempts`, so no talk after the first failure is submitted. Every call but a failing last one created an issue, and those issues are reported in order. The run fails iff some call fails, and then it carries the message of that last call. |

## Left out

- `LoadDocument` and `ScrapeWiki` fetch and parse the page through goquery. The model starts from the matched tables as sequences of cell texts. The selector semantics are not modelled: nested tables, `th` cells shifting `nth-child`, and several matches whose texts concatenate.
- `InitClient` and the GitHub call are not modelled. The OAuth2 and HTTP clients are foreign code, so the call is the `Tracker` oracle. Rate limits, retries and what the tracker stores are out of scope.
- `GetAccessToken` and `usage` parse the command line and exit the process. They have no logic to model.
- The `ERROR` and `ISSUE` console output and `os.Exit` are replaced by the results of `CreateIssues`. The exact printed text is not modelled.
- The fixed owner/repository and the wiki URL are constants with no logic.
- Labels: `NewIssue` (import.go:80-86) sets no labels and the program has no label logic, so the model sets none (`NewIssue` ensures `labels.None?`).
- Strings are sequences of characters. Go strings are byte strings, but the template copies fields verbatim either way, so nothing here depends on the encoding.
- Talks.ParseRender: the round trip is stated only for talks whose fields hold no line break. `Talks.RenderAmbiguousWithNewlines` shows that no inverse exists without that condition.
