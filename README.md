# launch-tracker core in Dafny

launch-tracker is a Slack bot. It watches for "prod" launch messages. From each message it extracts:

- the retailer, using the keyword table in `config.py`;
- the tranche;
- the page count.

It then offers a "Confirm & Log" button whose value packs these fields with a `|`. On confirmation it appends one CSV row to `launches.csv` in a GitHub repository. The append is optimistic: fetch, append, write back under the fetched version. A write that loses a version conflict (status 409) is retried, up to three attempts in all.

This project models that core and proves properties of it:

- `Config` (`config.dfy`): the `RETAILERS` table, as an ordered sequence of entries, and the `RETAILER_INFO` map.
- `Ascii` (`ascii.dfy`): ASCII character classes and `str.lower`.
- `MessageParse` (`message_parse.dfy`): `parse_message`.
  - The three `re.search` calls are scanning functions. Each is proved equal to the regular expression read declaratively: leftmost match, with greedy groups.
  - The nested retailer loop is a method. It is proved equal to a first-match function over the table.
- `Payload` (`payload.dfy`): the `|`-joined button value and its `split('|')` with a four-way unpacking.
- `CsvRow` (`csv_row.dfy`): `csv.writer(...).writerow` in the default `excel` dialect. Its partner is a reader for the record grammar of section 2 of RFC 4180, and a round-trip lemma joins the two.
- `GithubCsv` (`github_csv.dfy`): `update_github_csv`.
  - The remote file is a versioned store: absent, or content plus a version.
  - `Repo` is a class holding that store. `TryAttempt` is one attempt, with the buffer built step by step. `UpdateCsv` is the retry loop.
  - Both methods are proved against the functions `Attempt` and `Run`, and the retry policy is proved about those functions.
  - What happens around each attempt is a scripted `Round`. A round says whether the fetch raises, whether a concurrent bot instance appends its own row between our fetch and our write, and whether the write call fails with some status.
- `Wrappers` (`wrappers.dfy`): `Option`.

Where the code and the intended design disagree, the model follows the code:

- A file created after a failed fetch holds only the data row. The header string assigned in the failure branch (bot.py line 79) is never written, because the buffer copies `csv_data` only when the file exists (lines 91-92).
- The bare `except` around `get_contents` (line 77) turns any fetch failure into "file missing". A create that follows such a failure, when the file does exist, fails with a status other than 409. The call then returns False at once instead of retrying.
- Exhausting the retries and a hard error both return the same `False`. No distinct "conflict exhausted" result exists.

## Model

| member | source | states |
|---|---|---|
| Config.Retailers | config.py:6-54 | the `RETAILERS` entries in declaration order, 47 of them |
| Config.RetailersWellFormed | config.py:4-54 | every keyword is lower case; every entry has at least one keyword; names are pairwise distinct, none is "Unknown" and none contains `\|` |
| Config.RetailerInfo | config.py:57-63 | every `RETAILER_INFO` key is the name of some `RETAILERS` entry |
| Ascii.IsDigit | bot.py:40 | `\d`: the ten ASCII digits |
| Ascii.IsSpace | bot.py:40 | `\s`: space, the controls 0x09-0x0D and the separators 0x1C-0x1F |
| Ascii.IsWordChar | bot.py:53 | `\w`: letters, digits and `_` |
| Ascii.LowerChar | bot.py:46 | an upper-case letter becomes the lower-case form of the same letter (code point plus 32); every other character is unchanged; the result is never upper case |
| Ascii.LowerCharSame | bot.py:40-43 | two characters lower to the same one exactly when they are equal or are the two cases of one letter, which is what IGNORECASE compares |
| Ascii.MatchesIgnoreCaseAt | bot.py:40-43 | the text at `at` spells the word under IGNORECASE, character by character as `LowerCharSame` describes |
| Ascii.Lower | bot.py:46 | same length as the text, each character lowered |
| Ascii.LowerIdempotent | bot.py:46 | lowering twice is lowering once, and lowered text holds no upper-case letter |
| MessageParse.DigitRunEnd | bot.py:40 | the end of the maximal run of digits starting at `i` |
| MessageParse.SpaceRunEnd | bot.py:40 | the end of the maximal run of whitespace starting at `i` |
| MessageParse.PageMatchAt | bot.py:40 | the scan for `(\d+)\s*pages?` at `i`: a digit, then after the digit run and the whitespace run the word "page" in any case; its meaning is fixed by `PageRegexGreedy` |
| MessageParse.PageRegexGreedy | bot.py:40 | `(\d+)\s*pages?` matches at `i` with group 1 ending at `j` exactly when the scan matches at `i` and `j` ends the whole digit run, so the match at a start is unique and greedy |
| MessageParse.FirstPageMatch | bot.py:40 | the leftmost start at or after `from` where the page pattern matches; None when there is none |
| MessageParse.PageCount | bot.py:40-41 | the page count is "0" or a non-empty string of digits |
| MessageParse.PageCountNoMatch | bot.py:40-41 | without a match the page count is "0" |
| MessageParse.PageCountFirstMatch | bot.py:40-41 | with a first match at `i`, the page count is the whole digit run there; the run is maximal on the left too |
| MessageParse.DigitsAfter | bot.py:43 | where group 2 starts after the word: always a digit |
| MessageParse.TrancheAt | bot.py:43 | the start of group 2 for a match at `i`, always a digit |
| MessageParse.TrancheRegexUnique | bot.py:43 | `(Tranche\|T)[\s-]?(\d+)` matches at `i` with group 2 at `d` exactly when the scan gives `d` |
| MessageParse.FirstTrancheMatch | bot.py:43 | the leftmost start at or after `from` where the tranche pattern matches; None when there is none |
| MessageParse.Tranche | bot.py:43-44 | the tranche is "Unknown" or "T" followed by a non-empty string of digits |
| MessageParse.TrancheNoMatch | bot.py:43-44 | without a match the tranche is "Unknown" |
| MessageParse.TrancheFirstMatch | bot.py:43-44 | with a first match at `i` whose digits start at `d`, the tranche is "T" and the whole digit run at `d` |
| MessageParse.TrancheOfLoneT | bot.py:43-44 | a lone case-insensitive "t" counts: "at 3" gives "T3" |
| MessageParse.Boundary | bot.py:53 | `\b`: a word character on exactly one side of the position |
| MessageParse.WordAt | bot.py:53 | the keyword occurs at `i` with a `\b` before and after it |
| MessageParse.SearchWord | bot.py:53 | true exactly when the keyword occurs from `from` on with a word boundary on both sides |
| MessageParse.FirstRetailer | bot.py:46-58 | "Unknown" or the name of an entry with a keyword occurring in the text |
| MessageParse.FirstRetailerFirstMatch | bot.py:50-56 | when entry `i` is the first that matches, the result is its name |
| MessageParse.FirstRetailerNoMatch | bot.py:47-58 | when no entry matches, the result is "Unknown" |
| MessageParse.FindRetailer | bot.py:47-56 | the nested loops give "Unknown" or a matching entry's name, and for a table without an "Unknown" name they give the first match |
| MessageParse.ParseMessage | bot.py:39-58 | the three results are the first-match retailer in the lowercased text, the tranche and the page count |
| MessageParse.RetailerIsKeyOrUnknown | bot.py:46-58 | the retailer is always a `RETAILERS` name or "Unknown" |
| MessageParse.KeywordCaseInsensitive | bot.py:46-53 | for a lower-case keyword, matching in the lowercased text is a case-insensitive match in the text as written, with the same word boundaries |
| MessageParse.EmbeddedKeywordNoMatch | bot.py:52-53 | a keyword that starts with a word character never matches right after a word character |
| MessageParse.GapNotInSingapore | bot.py:52-53 | "gap" does not match inside "singapore" |
| Payload.Join | bot.py:139 | the parts with the separator between each two; `Split` undoes it for separator-free parts (`SplitJoin`), and it undoes `Split` (the ensures of `Split`) |
| Payload.Split | bot.py:150 | `split('\|')` gives at least one part, none containing `\|`, and joining them again gives the text |
| Payload.SplitCount | bot.py:150-151 | there is one part more than there are separators |
| Payload.SplitJoin | bot.py:150 | splitting a join of separator-free parts gives back the parts |
| Payload.Encode | bot.py:139 | the value holds three separators more than its fields do |
| Payload.Decode | bot.py:150-151 | the four-way unpacking succeeds exactly when the value holds three separators |
| Payload.DecodeEncode | bot.py:150-151 | decoding an encoded value gives it back exactly when no field holds `\|`; otherwise it fails |
| Payload.EncodeDecode | bot.py:150-151 | whatever decodes is the encoding of the fields it decodes to |
| Payload.ParsedFieldsPlain | bot.py:39-58 | with separator-free table names, the parsed retailer, tranche and page count never hold `\|` |
| Payload.ButtonRoundTrip | bot.py:139 | the button built from a parsed message unpacks to the same four fields exactly when the user id has no `\|` |
| CsvRow.EscapeQuotes | bot.py:96 | a field without `"` is unchanged |
| CsvRow.NeedsQuotes | bot.py:96 | the excel dialect's minimal quoting: a field is quoted when it holds `,`, `"`, CR or LF |
| CsvRow.EncodeField | bot.py:96 | a field is wrapped in `"` exactly when it holds `,`, `"`, CR or LF, and is unchanged otherwise |
| CsvRow.JoinFields | bot.py:96 | the encoded fields with `,` between them; read back by `ReadWriteRow` |
| CsvRow.WriteRow | bot.py:96 | every row ends with CRLF |
| CsvRow.WriteRowPlain | bot.py:96 | fields that need no quotes are written as they are, joined by `,`, followed by CRLF |
| CsvRow.ReadWriteRow | bot.py:84-97 | reading a written row under section 2 of RFC 4180 gives back its fields |
| CsvRow.WriteEmptyRow | bot.py:96 | the empty row is a bare CRLF, which reads back as one empty field |
| GithubCsv.Fetch | bot.py:72-81 | a fetch gives the stored file or nothing |
| GithubCsv.Create | bot.py:105 | a create succeeds exactly when no fault occurs and the file is missing; it then stores the content under the next version; a failed create changes nothing |
| GithubCsv.Update | bot.py:103 | an update succeeds exactly when no fault occurs and the named version is current; it then stores the content under the next version; a stale version answers 409; a failed update changes nothing |
| GithubCsv.NewContent | bot.py:88-97 | the `StringIO` buffer: the fetched content, a line break when it lacks one, then `writerow`; only the row after a failed fetch; its shape is stated by `NewContentShape` |
| GithubCsv.NewContentShape | bot.py:91-97 | the buffer is the old content unchanged, a line break only when the old content does not end with one, then the row; after a failed fetch it is the row alone |
| GithubCsv.Rival | bot.py:91-105 | another bot instance running the same append: the file then holds its buffer under the next version, and with no rival nothing changes |
| GithubCsv.Repo.RivalWrite | bot.py:91-105 | the new state is `Rival` of the old state |
| GithubCsv.Attempt | bot.py:71-105 | one iteration of the loop: fetch, build the buffer, let the rival write, then update the fetched version or create the file; its properties are those of `AttemptKeepsRows`, `AttemptSucceeds`, `AttemptValid`, `AttemptFailureUnchanged` and `AttemptRivalConflict` |
| GithubCsv.AttemptFailureUnchanged | bot.py:107-116 | a write that raises leaves the file as the other writer left it: our buffer never reaches the store |
| GithubCsv.Run | bot.py:68-117 | the whole call: True on a successful write, the next attempt after 409, False on any other status or after three attempts; its properties are those of `RunStep`, `RetryPolicy`, `SleepCount`, `RunKeepsRows`, `RunValid` and `RunSucceeds` |
| GithubCsv.RunStep | bot.py:107-116 | after a successful write the call returns True; after status 409 it goes on to the next attempt with one more sleep; after any other status it returns False |
| GithubCsv.Repo.GetContents | bot.py:73-76 | reads the stored file unless the fetch fails |
| GithubCsv.Repo.CreateFile | bot.py:105 | the response and the new state are those of `Create` |
| GithubCsv.Repo.UpdateFile | bot.py:103 | the response and the new state are those of `Update` |
| GithubCsv.TryAttempt | bot.py:71-105 | for a row of at least five fields, which the commit message reads, one attempt gives the response and the new state of `Attempt` |
| GithubCsv.UpdateCsv | bot.py:60-117 | for a row of at least five fields, the result, the final file and the number of sleeps are those of `Run`, and the store stays valid |
| GithubCsv.RetryPolicy | bot.py:68-117 | one to three writes; every write but the last answered 409; success exactly when the last write succeeded; a final 409 only once all attempts are used |
| GithubCsv.SleepCount | bot.py:109-113 | one sleep per 409, the one after the third attempt included |
| GithubCsv.AttemptKeepsRows | bot.py:91-105 | no attempt removes or rewrites content already in the file |
| GithubCsv.RunKeepsRows | bot.py:68-117 | over the whole call the old content stays a prefix of the file |
| GithubCsv.AttemptSucceeds | bot.py:72-107 | a successful attempt stored exactly its buffer under a fresh version with no writer in between; a successful create means the file was missing and now holds the row alone, without the header |
| GithubCsv.RunValid | bot.py:102-105 | the store stays valid and its version counter never goes back |
| GithubCsv.RunSucceeds | bot.py:96-107 | on success the file ends with the serialised row, under a version newer than any the store had before |
| GithubCsv.RivalThenSuccess | bot.py:109-113 | another writer appending first causes one 409; the retry succeeds and the file holds both rows, theirs first |
| GithubCsv.SequentialAppends | bot.py:72-105 | from a missing file, two calls leave the first row alone and then both rows in order, each exactly once |
| GithubCsv.QuietRun | bot.py:72-107 | with nothing going wrong, one call stores the buffer under the next version after a single write and returns True |
| GithubCsv.ConflictsExhaust | bot.py:68-117 | three conflicts use up all three attempts, take three sleeps and return False |
| GithubCsv.ConflictsFrom | bot.py:68-117 | from any attempt on, when another writer gets in first every time, every remaining attempt answers 409 and the call returns False |
| GithubCsv.HardErrorStops | bot.py:114-116 | any status other than 409 returns False at once and leaves the file as it was |
| GithubCsv.FetchFailureOnExistingFile | bot.py:77-105 | a failed fetch of an existing file leads to a refused create and returns False at once |

## Left out

- The Slack handlers are not modelled: block building, the user and permalink API calls, the ignore handler and Socket Mode startup (bot.py:120-203). They are SDK I/O. Only the button value codec is modelled.
- The HTTP health-check server (bot.py:26-36) is network plumbing.
- The PyGithub client is replaced by the versioned store, and the blob `sha` by a version counter.
  - The statuses 404 (update of a missing file) and 422 (create of an existing file) are assumptions about GitHub's REST API. The code only distinguishes 409 from any other status.
  - The commit message (bot.py:100) is built but not passed to the store; it only reads the row's second and fifth fields.
- Exceptions that are not `GithubException` are outside the model. Outside the fetch, such an exception escapes `update_github_csv` uncaught.
- GithubCsv.UpdateCsv and GithubCsv.TryAttempt require a row of at least five fields. With fewer, the commit message (bot.py:100) raises `IndexError` after the fetch and before any write, and the exception escapes the call. The only caller passes six fields (bot.py:168-169). The functions `Attempt` and `Run` are stated for any row and do not model this exception.
- Threads and background execution (bot.py:173-190) are not modelled. Concurrency appears only as a scripted other writer between one fetch and one write.
- `time.sleep(1)` is counted, not timed.
- `datetime.now` and the timestamp format (bot.py:165-166) read the clock, so the row passed to `UpdateCsv` is a parameter.
- dashboard.py is not part of this model. This includes its "Monthly" default for retailers missing from `RETAILER_INFO`.
- Text is ASCII only. `str.lower`, `\d`, `\s`, `\w` and `\b` are modelled on ASCII, with Python's ASCII set for `\s`. Unicode case mapping is not modelled.
- UTF-8 decoding of the fetched blob (bot.py:74) is not modelled. Content is a string throughout.
- CsvRow.ReadWriteRow: requires at least one field, because the empty row reads back as one empty field (see CsvRow.WriteEmptyRow).
- MessageParse.FindRetailer: the equality with the first-match function requires that no name is "Unknown". With such a name the loop would go on searching, and the method's first ensures still describes that case. `RETAILERS` meets this requirement (Config.RetailersWellFormed).
