# Document ingestion service, modelled in Dafny

This project models the core of the document ingestion service
(`DocumentService` in `services/documents.py`). That service does four
things:

- It pulls document descriptors for a date range from a paginated API.
- It walks the descriptors of one variant: the "data" variant or the
  "party" variant.
- It schedules one download per attachment link that the catalog does not
  have yet.
- It downloads the scheduled files with a bounded retry loop and counts
  the outcomes.

The network, the database, JSON decoding and asyncio are replaced by
inputs:

- **Pagination answers** are a sequence of optional pages. Entry k is what
  request k (0-based) receives. `None` stands for a failed request: a request
  exception or error status, or an empty answer. A request past the end of
  the sequence fails too.
- **The retry loop** gets a function from attempt number to how that
  attempt ended: a timeout-class error, an HTTP error status, any other
  exception, or a completed fetch together with what the save call
  returned.
- **The download phase** gets a function from a scheduled job to what its
  task gave: a returned string or a raised exception. It also gets a
  completion order, which is any enumeration of the job set.
- **The dispatch loop** gets the documents with their attachment payloads
  already decoded, the catalog's set of known links, and the base link.
  An id or link that is absent, `None` or empty is the empty string (all of
  them are falsy in the source). An absent `attachNum` is `None` and prints
  as `None` in the file name, as an f-string prints it.

Modules:

- `Wrappers`: the `Option` type.
- `Naming`: the pathlib suffix of a link, the target file name and the
  storage URL.
- `Download`: the retry loop and the classification of attempts.
- `DownloadPhase`: the outcome counters over a completion order.
- `Pagination`: the date-range page loop.
- `Dispatch`: the walk over documents and attachments, the dedup by link,
  and the run as a whole.

How the code behaves, which the model follows:

- An HTTP 403 ends a download with "failed"; there is no separate
  forbidden outcome (`services/documents.py:144-146`).
- A page whose `data` is empty does not stop pagination. Only a failed or
  empty answer does, or the page count being passed
  (`services/documents.py:68-75`).
- A connect error that is not a timeout is not retried. It falls into the
  generic exception branch and gives "failed" (`services/documents.py:134`,
  `151-153`).
- `gather_documents` reads its documents from the repository, not from the
  paginated API. So the two loops are modelled separately
  (`services/documents.py:199-201`).
- The counter `files_in_db_count` also counts a link that an earlier
  attachment of the same run scheduled, not only links the catalog had
  (`Dispatch.ScheduledCount`).

## Model

| member | source | states |
|---|---|---|
| Pagination.FetchByDateRange | services/documents.py:51-77 | Request k carries the date filters, limit 100 and offset 100·k. The loop makes exactly the number of requests its stopping rule gives. The result is every `data` list received, in order, including the pages before a failed request. |
| Pagination.StopsAtUnique | services/documents.py:63-75 | The answers determine the number of requests. |
| Pagination.CursorAfterFirstPage | services/documents.py:72-75 | Once a first answer with a non-zero page count is in, the page count stays fixed and the page number goes up by one per answered request. |
| Pagination.RequestCount | services/documents.py:62-75 | With no failed request, a first answer with page p and page count P ≠ 0 leads to P − p + 1 requests when P ≥ p, and to one request otherwise. |
| Pagination.EmptyRangeOneRequest | services/documents.py:62-75 | A first answer with page count 0 and page ≥ 0 ends the loop after one request. |
| Pagination.GatheredKeepsEarlier | services/documents.py:68-77 | Later requests only append: what earlier requests gathered is a prefix of the result. |
| Pagination.GatheredFromAnswers | services/documents.py:68-69 | Every returned document came from the `data` of an answered request. |
| Download.Label | services/documents.py:132-153 | A task returns one of "success", "404" and "failed". "success" means Success and "404" means NotFound, in both directions. |
| Download.Verdict | services/documents.py:128-153 | An attempt is retried exactly when it ended in a timeout-class error. It gives NotFound exactly for status 404, and Success exactly for a completed fetch whose save returned true. Everything else gives Failed. |
| Download.DownloadAndSave | services/documents.py:110-153 | No token means "failed" after zero attempts. Otherwise there are 1 to 9 attempts, all but the last timed out, and the last one decides the outcome. Nine timeouts give "failed". |
| Download.FirstDecisiveAttempt | services/documents.py:117-153 | The first attempt that does not time out is the last one, and its verdict is the outcome. |
| Download.AllAttemptsTimeOut | services/documents.py:134-138 | Nine timeouts in a row mean nine attempts and then "failed". |
| Download.DownloadDeterministic | services/documents.py:110-153 | The attempts' results determine the outcome and the number of attempts. |
| DownloadPhase.TallyCounts | services/documents.py:184-194 | "success" counts are success, "404" counts are not-found, and every other result is a failure, a raised exception included. |
| DownloadPhase.SomeCompletionOrder | services/documents.py:179-183 | The tasks may complete in some order that holds every job exactly once. |
| DownloadPhase.RunAllDownloads | services/documents.py:155-196 | The counters are the fold of the results in completion order, and they add up to the number of jobs. |
| DownloadPhase.ResultsPermute | services/documents.py:179-185 | Reordering the jobs only reorders their results. |
| DownloadPhase.TallyOrderIndependent | services/documents.py:179-194 | The counters are the same for every completion order. |
| DownloadPhase.TallyOfOutcomes | services/documents.py:164-194 | Over tasks that return the downloader's outcomes, each counter is the number of outcomes of its kind. |
| Naming.Name | services/documents.py:246 | The final path component has no '/' and is not ".", and it is no longer than the path. |
| Naming.NameOfPlain | services/documents.py:246 | A plain name, with no '/' and other than "" and ".", is its own final component. |
| Naming.NameTrailingSlash | services/documents.py:246 | A trailing '/' does not change the final component. |
| Naming.NameTrailingDot | services/documents.py:246 | A trailing "/." does not change the final component. |
| Naming.NameIsLastComponent | services/documents.py:246 | A non-empty final component is a whole '/'-delimited component of the path, and what follows it has no final component of its own (only '/' and "." components). |
| Naming.Suffix | services/documents.py:246 | The extension is the final component from its last '.' when that '.' is neither its first nor its last character, and is empty otherwise. |
| Naming.NameOfFile | services/documents.py:246 | A plain file name under any directory is its own final component. |
| Naming.FileName | services/documents.py:247-254 | The file name is the document id, then "-" and the attachment number for the party variant, then the extension. |
| Naming.DownloadUrl | services/documents.py:256 | The URL is the base link, then "storage/file/", then the link. |
| Naming.LinkFromUrl | services/documents.py:256 | The link can be read back from its URL. |
| Naming.DownloadUrlInjective | services/documents.py:255-256 | Different links under one base link give different URLs. |
| Naming.SuffixOfPlainName | services/documents.py:246 | "a.pdf" has the extension ".pdf". |
| Naming.SuffixOfNestedName | services/documents.py:246 | "files/scan.jpg" has the final component "scan.jpg" and the extension ".jpg". |
| Naming.DataFileNameExample | services/documents.py:246-254 | Data document "D1" with link "a.pdf" gives file "D1.pdf". |
| Naming.PartyFileNameExample | services/documents.py:246-254 | A party attachment numbered "2" gives "P7-2.jpg". Without a number it gives "P7-None.jpg". |
| Naming.NoSuffixExamples | services/documents.py:246 | A leading dot, a trailing dot, or a dot only in a directory name gives no extension. |
| Dispatch.ItemOrigin | services/documents.py:219-234 | Every attachment looked at belongs to a document with a non-empty id and carries that id. |
| Dispatch.AttachmentIncluded | services/documents.py:219-234 | Every attachment of a document with an id is looked at. |
| Dispatch.StepLinkless | services/documents.py:235-239 | An attachment without a link is skipped and leaves links, counters and schedule unchanged. |
| Dispatch.StepKnown | services/documents.py:241-243 | An attachment whose link is known only increments the in-catalog counter. |
| Dispatch.StepNew | services/documents.py:245-257 | An attachment with a new link makes the link known and schedules exactly its job. |
| Dispatch.DispatchAttachment | services/documents.py:234-257 | One attachment keeps the dispatch invariant. It is skipped without a link, counted as in the catalog when its link is known, and otherwise its link becomes known and its job is scheduled. |
| Dispatch.DispatchAttachments | services/documents.py:232-257 | Walking one document's attachments keeps the dispatch invariant: known links = old links ∪ scheduled links, and one job per new link, built from its first occurrence. Every attachment is counted once: link-less, known, or scheduled. |
| Dispatch.DispatchDocument | services/documents.py:219-259 | A document without an id adds nothing. Otherwise its attachments are counted and dispatched. |
| Dispatch.DownloadAll | services/documents.py:269 | The download phase's counters add up to the number of jobs and equal the tally of every completion order. |
| Dispatch.GatherDocuments | services/documents.py:198-269 | The whole run: the dispatch invariant over all attachments, and all-attachments = link-less + in-catalog + scheduled. No documents means nothing is scheduled. The download phase runs exactly when something was scheduled, and its counters do not depend on the completion order. |
| Dispatch.DispatchedUnique | services/documents.py:232-257 | The walk is deterministic: the documents and the catalog fix the known links, the in-catalog counter and the scheduled jobs. |
| Dispatch.OnePerLinkCount | services/documents.py:255-257 | With at most one job per link, there are as many scheduled links as jobs. |
| Dispatch.KnownAfterRun | services/documents.py:210-245 | After a run, the known links are the catalog's links plus every link the documents carry. |
| Dispatch.ScheduledCount | services/documents.py:233-257 | The run schedules one download per distinct link the catalog lacks. Every other attachment with a link is counted as in the catalog, repeats within the run included. |
| Dispatch.RerunSchedulesNothing | services/documents.py:241-243 | Once the catalog has every link of the documents, a run schedules nothing and counts every attachment with a link as in the catalog. |
| Dispatch.SingleAttachmentRun | services/documents.py:232-257 | One attachment with a link, with an empty catalog, schedules exactly its own job. |
| Dispatch.DocumentD1FirstRun | services/documents.py:219-257 | Data document "D1" with link "a.pdf" and an empty catalog: exactly one download, of `<base>storage/file/a.pdf` into "D1.pdf". |

## Left out

- Pagination.FetchByDateRange: the answers form a finite sequence, and a request past its end fails, so the model always stops. The source keeps requesting forever if the server keeps answering with page count 0 and a negative page.
- Pagination.FetchByDateRange: while the page count is still 0, an answer without a `pageCount` key, or without an integer `page`, raises in the source (`services/documents.py:72-74`). Later answers' keys are never read. Pages here always carry two integers.
- Pagination.FetchByDateRange: an answer whose JSON body is null or a list raises an AttributeError in `_fetch_data` (`services/documents.py:42`). That error is not a request exception, so it escapes the loop and the pages already gathered are lost. The model treats every failed answer as `None` and keeps the earlier pages.
- The token check in `_fetch_data`, which ends the process (`services/documents.py:28-30`), is not modelled. The HTTP request, the status check and the JSON decoding of each page are the answer sequence.
- Download.DownloadAndSave: the ten-second sleep between attempts and the HTTP streaming are not modelled. The save call is part of the attempt function, and an exception it raises counts as "any other exception".
- DownloadPhase.RunAllDownloads: the semaphore that limits concurrency to ten tasks, and the concurrency itself, are not modelled. Each job's task result is a fixed function of the job, so save results that depend on which task saves first are not captured.
- Dispatch.GatherDocuments: `json.loads` of `originalText` and `attachments` is not modelled. Documents come decoded, and JSON that fails to decode, or decodes to something other than records, is out of scope. Ids and links are strings.
- Naming.Suffix: POSIX paths only. It follows the long-standing pathlib rule that a name ending in a dot has no suffix; newer Python versions changed that rule.
- The synchronous `_download_and_save_to_db` (`services/documents.py:79-108`) is never called and is not part of this model.
- Logging, progress bars and the final report (`services/documents.py:271-280`) print counters and are not modelled.
- utils/file_hashing.py, repo/, database/, gather_data.py, main.py and config/ are not part of this model. The repository is the link set that is passed in, the document list, and the save result inside the attempt function.
