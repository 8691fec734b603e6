# DesafioJus crawler core, modelled in Dafny

DesafioJus scrapes public case pages of the Alagoas state court (TJAL). The
model covers:

- the two text normalisers of `crawler_jus/util.py`;
- the `Crawler` class of `crawler_jus/crawler.py`, which reads parties,
  movements and header fields from a page and fetches first- and
  second-instance pages under a retry policy;
- the older `CrawlerTjal` class of `crawlers/crawler_tjal.py`.

A fetched page is a value (`Document.Page`). Each BeautifulSoup lookup the
code makes is a field of that value, holding what the lookup finds. The HTTP
session is a function `Crawler.Network` from an attempt number and a URL to a
page or an error. Python exceptions are the `Document.Error` values carried
in `Wrappers.Result`.

Modules, one per concern:

- `Wrappers`: `Option`, and `Result` with failure propagation.
- `Util`: `remove_blank_space` and `remove_special_characters`. `CrawlerTjal`
  has line-for-line copies of both, so they are modelled once.
- `Dates`: `datetime.strptime(text, "%d/%m/%Y")` and its inverse formatting.
- `Document`: the page and the error kinds.
- `Retry`: tenacity's `retry(wait_fixed(1), stop_after_attempt(5))` as a loop
  over a fallible step.
- `Crawler`: `extract_partes` and `extract_movimentos` are methods with loops,
  each proved equal to a specification function. Record assembly and the
  request decisions are functions. The request methods run the retry loop.
- `CrawlerTjal`: the swallowing `extract_movimentos` and the request method.
  Its `extract_partes` is a copy of `Crawler`'s, so `Crawler.ExtractPartes`
  stands for both.

What the code does that is easy to miss, as proved here:

- **A missing record is an exception, not an empty result.** A page showing
  the `mensagemRetorno` marker is replaced by `None`, and `extract_processo_info`
  then dereferences it. That raises, the retry policy retries it, and the call
  fails after five attempts. See `PrimeiroGrauNoRecordGivesUp` and
  `SegundoGrauNoRecordGivesUp`.
- **Every kind of exception is retried**, including parse errors and a missing
  required field.
- **Only the Alagoas court is queried.** For any tribunal code other than
  "02" the result variable is never bound, so every attempt fails.
- **An attorney-only row makes a new entry** that repeats the current role and
  name. It is not merged into the previous entry.
- **A description can start with a space.** When the movement type is empty
  and the text is not, the description is `" " + text`.

Where the documented behaviour and the code disagree, this model follows the
code:

- the "no movements" sentence gives `None`, not an empty list;
- an HTTP response is parsed whatever its status (no status check is made);
- structural failures are retried like network failures;
- a no-record page is not returned as an empty result.

## Model

| member | source | states |
|---|---|---|
| Util.RemoveBlankSpaceCollapsed | crawler_jus/util.py:4-7 | The output has no whitespace at either end, and its only whitespace is single `' '` characters between words. |
| Util.RemoveBlankSpaceKeepsText | crawler_jus/util.py:6-7 | Deleting the whitespace of the output gives the input with all its whitespace deleted: non-whitespace characters are kept, in order. |
| Util.RemoveBlankSpaceEmpty | crawler_jus/util.py:6-7 | The output is `""` exactly when the input is empty or all whitespace. |
| Util.RemoveBlankSpaceFixedPoints | crawler_jus/util.py:4-7 | The output equals the input exactly when the input is already collapsed. |
| Util.RemoveBlankSpaceIdempotent | crawler_jus/util.py:4-7 | Applying `remove_blank_space` twice gives the same as once. |
| Util.RemoveBlankSpaceIsJoin | crawlers/crawler_tjal.py:29-32 | In the copy in crawler_tjal.py, the final `strip()` changes nothing: the result is the words of `split()` joined by single spaces. |
| Util.DropSpecial | crawler_jus/util.py:13-15 | After the first substitution, no character of `\ / , ; < > . ? ! * - + _ = @ # % : ( )` remains. |
| Util.RemoveSpecialCharactersShape | crawler_jus/util.py:13-19 | The output has none of those characters, no whitespace at either end, and never two whitespace characters in a row. |
| Util.RemoveSpecialCharactersKeepsText | crawler_jus/util.py:13-19 | Every character that is neither whitespace nor special survives, in its original order. |
| Util.RemoveSpecialCharactersFixedPoints | crawler_jus/util.py:10-20 | The output equals the input exactly when the input is tidy and has no special character. So a lone tab between words is kept. |
| Util.RemoveSpecialCharactersIdempotent | crawlers/crawler_tjal.py:34-44 | In the copy in crawler_tjal.py, applying the normaliser twice gives the same as once. |
| Util.DeleteChar | crawler_jus/crawler.py:228-232 | `str.replace(c, "")`, used on the claim value: no `c` is left, every other character keeps its count, and deleting a whitespace `c` keeps the non-whitespace text in order. |
| Dates.ParseDate | crawler_jus/crawler.py:162-169 | `strptime(text, "%d/%m/%Y")` succeeds only with a date that exists, years 1 to 9999. |
| Dates.ParseFormatDate | crawlers/crawler_tjal.py:110-117 | Every valid date written as `dd/mm/yyyy` parses back to itself. |
| Retry.Call | crawler_jus/crawler.py:43-43 | The retry loop attempts the step at most 5 times. Every attempt before the last failed. It returns the first success, or gives up with the fifth failure. |
| Retry.FirstSuccessWins | crawler_jus/crawler.py:69-69 | A step that fails n-1 times and then succeeds (n ≤ 5) is attempted exactly n times and returns that success. |
| Retry.AllFailuresGiveUp | crawlers/crawler_tjal.py:146-146 | A step that always fails is attempted exactly 5 times, and the call fails with the last error. |
| Retry.RetriedAsUnique | crawler_jus/crawler.py:43-44 | The outcome and the attempt count are determined by the step alone. |
| Crawler.Attorneys | crawler_jus/crawler.py:126-131 | There is one `"Advogado(a): "` entry per span, in span order, each from the normalised text after the span. It fails with a type error exactly when some span is not followed by text. |
| Crawler.ExtractAdvogados | crawler_jus/crawler.py:127-131 | The inner loop over the spans equals `Attorneys`. |
| Crawler.PartyOf | crawler_jus/crawler.py:120-137 | A non-empty row is read exactly when it is readable. A party row sets role and name from its cells and has one attorney per span. Any other row keeps the current role and name and has the single attorney from cell 2. |
| Crawler.PartyRows | crawler_jus/crawler.py:104-117 | `tableTodasPartes` is preferred; otherwise `tablePartesPrincipais` is used; with neither, the call raises. |
| Crawler.ExtractPartes | crawler_jus/crawler.py:100-138 | The loop with its carried role and name equals the scan `PartiesOfPage`. |
| Crawler.ScanPartes | crawler_jus/crawler.py:118-138 | From the placeholder party, the row loop returns exactly the scan `PartiesOf` over the rows, including its first error. |
| Crawler.ExtractParte | crawler_jus/crawler.py:120-137 | One non-empty row read under the current party equals `PartyOf`. A party row yields a new role, name and attorney list. Any other row adds its second cell's attorney under the current party. |
| Crawler.PartiesOfEntries | crawler_jus/crawler.py:119-137 | There is exactly one entry per non-empty row, in row order. Entry k is row k read under the party of entry k-1, or under the initial party for the first row. |
| Crawler.PartiesOfSucceeds | crawler_jus/crawler.py:119-135 | The scan succeeds exactly when every non-empty row is readable, whatever the carried party. |
| Crawler.PartyOfClean | crawler_jus/crawler.py:123-135 | An entry read under a placeholder-or-normalised party has a role and name of that kind. Each of its attorney strings is the label followed by normalised text. |
| Crawler.PartiesOfClean | crawlers/crawler_tjal.py:46-86 | Starting from `"NAO_INFORMADO"`, every role and name is that placeholder or normalised text, and every attorney string starts with `"Advogado(a): "`. |
| Crawler.PlaceholderUntilPartyRow | crawler_jus/crawler.py:102-103 | With no party row, every entry carries the role and name `"NAO_INFORMADO"`. |
| Crawler.MovementDate | crawler_jus/crawler.py:162-169 | The date of a row is a valid date. A date text that does not parse raises `ValueError`. |
| Crawler.MovementType | crawler_jus/crawler.py:174-181 | The movement type is normalised text, from the link when there is one, else from the cell's leading text. |
| Crawler.MovementsOfRows | crawler_jus/crawler.py:157-191 | The row loop succeeds exactly when every row can be read, and then gives one movement per row, in row order. |
| Crawler.ExtractMovimentos | crawler_jus/crawler.py:140-197 | The loop equals `MovementsOfPage`. |
| Crawler.MovementsOfPageOutcomes | crawler_jus/crawler.py:142-197 | No heading (or a heading outside a `div`) gives `[]`. The "no movements" sentence, and only it, gives `None`. A missing table, a missing row container or any unreadable row raises. Otherwise there is one movement per row, in order. |
| Crawler.DescribeShape | crawler_jus/crawler.py:185-190 | The description is the type alone, or type + `" "` + text. It has no special characters and keeps both parts' text in order. It is tidy unless the type is empty and the text is not. |
| Crawler.MovementOfShape | crawler_jus/crawler.py:161-191 | A movement's date is the parse of the collapsed date text, and its description is built from the row's type and text as `DescribeShape` states. |
| Crawler.ExtractProcessoInfoSucceeds | crawler_jus/crawler.py:202-250 | A record is built exactly when there is a page with class, subject, area and claim value whose parties and movements can be read. `grau == 1` reads class and subject from `span`, any other value from `div`. A `None` page raises. |
| Crawler.ExtractProcessoInfoFields | crawler_jus/crawler.py:203-247 | Each field is the text found. A missing date or judge gives `""`. The claim value has every `' '` removed, with its other text kept in order. Parties and movements come from the page, and the instance is kept when truthy. |
| Crawler.GetCodigoSegundaInstancia | crawler_jus/crawler.py:36-41 | The code is the `value` attribute of `input#processoSelecionado`, which may be absent. With no such input, the call raises. |
| Crawler.SendRequestPrimeiroGrau | crawler_jus/crawler.py:43-67 | The call is the retry loop over first-instance attempts. For a tribunal other than "02" it gives up after 5 attempts with the unbound-variable error. |
| Crawler.SendRequestSegundoGrau | crawler_jus/crawler.py:69-98 | The call is the retry loop over second-instance attempts. For a tribunal other than "02" it gives up after 5 attempts with the unbound-variable error. |
| Crawler.OnlyAlagoasIsQueried | crawler_jus/crawler.py:44-98 | An attempt fetches something exactly when the tribunal is "02", and then starts with the court's URL followed by the NPU. Otherwise it fails unbound. |
| Crawler.SegundoGrauResolution | crawler_jus/crawler.py:82-97 | The marker is checked first and makes the attempt raise. Otherwise a selection input leads to a second fetch by its code (`None` written as "None"), whose page is read. Otherwise the search page itself is read. |
| Crawler.PrimeiroGrauNoRecordGivesUp | crawler_jus/crawler.py:55-60 | If every first-instance attempt gets a no-record page, the call gives up after 5 attempts with `AttributeError`. It never returns an empty result. |
| Crawler.SegundoGrauNoRecordGivesUp | crawler_jus/crawler.py:82-83 | If every second-instance search shows the no-record marker, the call gives up after 5 attempts with `AttributeError`. |
| Crawler.SendRequestRecords | crawler_jus/crawler.py:95-97 | A returned record comes from tribunal "02", carries the requested NPU and has instance 1 or "2" according to the method. |
| CrawlerTjal.ExtractMovimentos | crawlers/crawler_tjal.py:88-144 | The loop equals this class's `MovementsOfPage`: any row error becomes `None`. |
| CrawlerTjal.MovementsFailOnlyWithoutTable | crawlers/crawler_tjal.py:94-103 | The only remaining exception is a heading inside a `div` with no following table, which is read outside the `try`. |
| CrawlerTjal.MovementsAgree | crawlers/crawler_tjal.py:105-142 | The result is the same as crawler.py's whenever that one succeeds. Where crawler.py raises, this one gives `None`, except when the table is missing. |
| CrawlerTjal.ExtractProcessoInfoPrimeiraInstancia | crawlers/crawler_tjal.py:146-175 | Only the fetch can fail an attempt. The call gives up exactly when all 5 fetches fail. Otherwise it returns `None` after the first fetch that succeeds. |
| CrawlerTjal.ExtractFieldsSucceeds | crawlers/crawler_tjal.py:155-172 | The `try` block completes exactly when class, area, subject, date, judge and value are all present, the parties can be read and the movements table is not missing. |
| CrawlerTjal.ExtractFieldsAgree | crawlers/crawler_tjal.py:156-171 | Where crawler.py builds a first-instance record from a page that has a date and a judge, this block extracts the same values. |

## Left out

- HTTP: `requests.Session`, `verify=False` and the 1000-second timeout are not modelled. Each fetch is a call to the `Network` parameter.
- HTML parsing and tag search (BeautifulSoup) are not modelled. The page is a value holding what each lookup finds, and `get_text(strip=True)` results are taken as given.
- The regular-expression engine is not modelled. The five substitutions are written as string functions, and `\s` is Python's whitespace set.
- `strptime` accepts only ASCII digits in this model; Python also accepts other Unicode decimal digits. The time part of the returned `datetime` (always midnight) is not represented.
- The one-second wait between attempts is timing only and is not modelled.
- `api/router.py` is FastAPI glue that calls the crawler without arguments; it is not part of this model.
- `extract_tribunal` is imported by crawler.py, but its source is not part of this model. The tribunal code is a parameter.
- Logging, the printing in crawler_tjal.py (`print(juiz)`, `print(e)`, `print(exe)`) and the `__main__` demos are side effects and are left out.
- The Ceará URLs in `Crawler.__init__` are never used.
- Running the two instances concurrently does not appear in the code; the request methods are independent calls.
- The `x if x else ""` fallbacks of the returned dictionary are identities on strings, so they are not written out. Only the one on `grau` is modelled.
