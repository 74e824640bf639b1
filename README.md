# osf-pigeon core, modelled in Dafny

osf-pigeon archives a registration of the Open Science Framework (OSF) to the
Internet Archive (IA). For one registration guid it does the following:

- It downloads the registration's JSON listings (wikis, logs, the registration
  itself, contributors) through a rate-limited, paginated collector.
- It bags and zips a staging directory.
- It derives the IA item metadata from the registration record.
- It uploads the bag, then pushes the metadata to the IA item. Pushing retries
  while the item is still "dark" (not yet locatable) and marks withdrawn
  registrations as `noindex`.

This project models the decision logic of `osf_pigeon/pigeon.py` and proves
properties of it. Every network, archive and file-system call is a
parameter, as described below.

The modules follow the parts of `pigeon.py`:

- `Common` (common.dfy) holds the shared pieces:
  - decoded JSON values and Python's dict lookups `d[k]` / `d.get(k)`;
  - the exceptions the code can raise, and a `Result` type for code that
    raises;
  - the decimal text of integers.
- `Fetch` (fetch.dfy) covers `get_with_retry`:
  - how one HTTP response is classified (retry signal with a period, error,
    or accepted);
  - the `sleep_and_retry` loop around it, run over the sequence of responses
    the server gives;
  - Python's `int()` on the `Retry-After` header.
- `Pagination` (pagination.dfy) covers `get_paginated_data` and `get_pages`:
  - They are imperative methods (the page loop that fills a dict keyed by
    page, and the concatenation loop).
  - Each method is proved equal to the specification function `CollectSpec`.
  - Properties of `CollectSpec` are proved as lemmas.
  - `get_pages` never awaits, so `asyncio.gather` runs the page tasks one by
    one in creation order. The collector is modelled as that sequential
    loop. A task already scheduled still runs after an earlier one failed,
    so every page request is made, and the error of the lowest failing page
    is the one raised.
- `Contributors` (contributors.dfy) covers `get_contributors`, the
  `parse_json` callback of the contributors listing. One method is proved
  equal to the projection function. The institutions request is a
  parameter.
- `Metadata` (metadata.dfy) covers `get_metadata`. It includes a model of
  `datetime.strptime(s, "%Y-%m-%dT%H:%M:%S")` and of `strftime("%Y-%m-%d")`.
- `Sync` (sync.dfy) covers `modify_metadata_with_retry` and `sync_metadata`:
  - The IA item is a class. Its `modify_metadata` answers are given by a
    function of the call number, and it records the metadata of each call.
  - The caller's metadata dict is a class whose `noindex` entry is set in
    place.
- `Archive` (archive.dfy) covers the entry names of `create_zip_data`. The
  `os.walk` traversal is a given sequence of steps, and the `ZipFile` is a
  class that records its entries.
- `Doi` (doi.dfy) covers `build_doi`, with a model of the named-field part of
  `str.format`.
- `Children` (children.dfy) covers the child filter of `gather_children`.

Points where the code's behaviour is easy to misread:

- Only page 1 goes through `parse_json`: `get_pages` is called without it
  (pigeon.py:312). Pages 2..n of the contributors listing therefore stay raw
  API records (`Pagination.PaginatedMerge`).
- The retry period is a truthy `sleep_period` argument when one is given,
  else `int()` of the `Retry-After` header, else 0 (pigeon.py:255). A header
  that `int()` rejects raises ValueError (`Fetch.Classify`).
- A dark item is called `retries + 1` times. The error that escapes is the
  last call's ItemLocateError, raised by `raise e` in the innermost
  recursive call (pigeon.py:102) and passed up through the outer calls. Any
  other locate error is re-raised, and any other exception escapes, after
  one call (`Sync.ModifyRun`).
- `get_pages` contains no `await`, so the page requests run one after
  another, in page order.
- `build_doi` passes the DataCite prefix to `DOI_FORMAT`, but the template has
  no `{prefix}` field. The DOI is therefore always `10.70102/fk2osf.io/<guid>`,
  whatever prefix is configured (`Doi.BuildDoiIgnoresPrefix`).

## Model

| member | source | states |
|---|---|---|
| Fetch.Classify | osf_pigeon/pigeon.py:251-259 | A response whose status is in `retry_on` is never accepted. It raises ValueError exactly when its retry period fails, and is otherwise a retry after that period. Any other 4xx/5xx status raises HTTPError with that status. A response is accepted exactly when its status is neither. |
| Fetch.RetryPeriod | osf_pigeon/pigeon.py:253-256 | `sleep_period or int(Retry-After or 0)`: a truthy sleep period is the period; else a truthy header is read by `int()`; else 0. It fails exactly when the header is used and `int()` rejects it, and the error is ValueError. |
| Fetch.PyInt | osf_pigeon/pigeon.py:255 | `int()` of the header text yields a value only when something is left after trimming whitespace. |
| Fetch.PyIntNeedsDigit | osf_pigeon/pigeon.py:255 | Text holding no decimal digit (`""`, `"-"`, `"abc"`) is rejected, which makes the retry a ValueError. |
| Fetch.PyIntSpaced | osf_pigeon/pigeon.py:255 | Whitespace around `str(n)` is ignored: the text reads as n. |
| Fetch.PyIntNegated | osf_pigeon/pigeon.py:255 | `-` followed by digits reads as the negated number. |
| Fetch.SleepPeriodWins | osf_pigeon/pigeon.py:255 | A non-zero `sleep_period` is the retry period, whatever the header says. |
| Fetch.RetryAfterHonoured | osf_pigeon/pigeon.py:255 | Without a sleep period, a `Retry-After: n` header (text `str(n)`) gives a retry after n seconds. |
| Fetch.NoHintRetriesAtOnce | osf_pigeon/pigeon.py:255 | Without a sleep period and without a non-empty header, the retry period is 0. |
| Fetch.PyIntDecimal | osf_pigeon/pigeon.py:255 | `int(str(n)) == n`: a server's `str(n)` is read back as n. |
| Fetch.SleepAndRetry | osf_pigeon/pigeon.py:236-259 | The `@sleep_and_retry` loop over the server's responses. It never makes more requests than there are responses. Every request before the last got a retry status. A returned response has neither a retry status nor an error status. A raised error is the last response's classification, or the ValueError of `time.sleep` for a negative period. There is one sleep per retry signal, with that signal's period, never negative. It is still retrying exactly when every response so far was a retry with a non-negative period. |
| Fetch.NegativeRetryAfterRaises | osf_pigeon/pigeon.py:251-256 | A `Retry-After: -n` (n > 0) without a sleep period ends the loop after one request with ValueError and no sleep. |
| Pagination.CountField | osf_pigeon/pigeon.py:307-308 | `links.meta.X` when truthy, else `meta.X`. A missing top-level `meta` is KeyError("meta"). |
| Pagination.IsPaginated | osf_pigeon/pigeon.py:300 | `links.next` is falsy when missing or null and when empty, and truthy when a non-empty link is present. |
| Pagination.CeilDiv | osf_pigeon/pigeon.py:310 | `math.ceil(t / p)` over exact rationals: the n with (n-1)·p < t ≤ n·p (bounds mirrored for negative p). |
| Pagination.PageCount | osf_pigeon/pigeon.py:307-310 | A successful count is the ceiling of `total / per_page` for the two fields. A KeyError from either field propagates (total first). A missing or null field is a TypeError from `int(None)`, and a zero `per_page` is a ZeroDivisionError. |
| Pagination.PageCountIsCeiling | osf_pigeon/pigeon.py:307-310 | With integer `total` and positive `per_page`, the page count is the least n with n·per_page ≥ total. |
| Pagination.PageUrlInjective | osf_pigeon/pigeon.py:263 | Distinct page numbers are requested at distinct `url?page=k` URLs. |
| Pagination.FirstError | osf_pigeon/pigeon.py:314 | `asyncio.gather`'s outcome: no error exactly when every page succeeded. Otherwise the error is that of the lowest failing page: every page before it succeeded. |
| Pagination.GetPages | osf_pigeon/pigeon.py:262-271 | Requests `url?page=k`. It stores the page's `data` (transformed when `parse_json` is given) under key k, leaves the other keys as they were, and propagates a request or transform error. |
| Pagination.CollectSpec | osf_pigeon/pigeon.py:296-322 | The first request is always `url`. A failed first request is the only request and its error is the result. The whole transformed first response is returned exactly when the first request and the transform succeed and the response is not paginated, and then `url` is the only request. |
| Pagination.FetchRemainingPages | osf_pigeon/pigeon.py:311-314 | The `range(1, pages)` loop requests pages 2..pages, in order. Its error is the first page failure. When no page fails, every page k is stored under key k, and key 1 holds page 1's data. |
| Pagination.ConcatPages | osf_pigeon/pigeon.py:316-320 | Concatenating the dict's values in page order gives the flattening of pages 1..n. |
| Pagination.GetPaginatedData | osf_pigeon/pigeon.py:296-322 | The method's result and the URLs it requests are exactly those of the specification `CollectSpec`. |
| Pagination.NotPaginatedShortCircuits | osf_pigeon/pigeon.py:297-322 | Without `links.next`, exactly one request is made, and the result is the whole transformed first response, not its data list. |
| Pagination.PaginatedRequests | osf_pigeon/pigeon.py:305-313 | For n pages, exactly max(n,1) requests are made: the first URL, then `url?page=k` for k = 2..n in ascending order, all distinct. |
| Pagination.PaginatedMerge | osf_pigeon/pigeon.py:306-320 | When every page arrives, the result is page 1's transformed data followed by pages 2..n's raw data, in ascending order. The result's length is the sum of the page lengths. |
| Pagination.FailedPageFailsAll | osf_pigeon/pigeon.py:311-314 | One failing page fails the collection with the error of the lowest failing page. No partial result is returned, and all page requests are still made. |
| Pagination.FlattenConcat | osf_pigeon/pigeon.py:316-320 | Concatenating the pages of two lists equals concatenating both lists' concatenations. |
| Pagination.FlattenLength | osf_pigeon/pigeon.py:316-320 | The merged list's length is the sum of the page lengths. |
| Contributors.ContributorFields | osf_pigeon/pigeon.py:277-282 | For a contributor that does not fail, the name is `attributes.full_name` of the embedded user, the ORCiD is `attributes.social.get('orcid')`, and the institutions URL is the text at `relationships.institutions.links.related.href`. |
| Contributors.NamesOf | osf_pigeon/pigeon.py:286-289 | The institution-name comprehension gives one name per institution, in order, each being its `attributes.name`. |
| Contributors.InstitutionNames | osf_pigeon/pigeon.py:285-289 | On a list, the comprehension is `NamesOf`. On anything else only an empty dict or an empty string succeeds, with no names. Any other value is a TypeError, since iterating it yields keys, characters or nothing iterable. |
| Contributors.AffiliatedInstitutions | osf_pigeon/pigeon.py:282-289 | On success the institutions request for the link succeeded, its body has `data`, and the names are `InstitutionNames` of that `data`. |
| Contributors.ProjectContributor | osf_pigeon/pigeon.py:277-291 | A record has exactly the keys `ORCiD`, `name`, `affiliated_institutions`. They hold the contributor's `social.orcid` (or null), its `full_name`, and the institution names fetched from its institutions link. |
| Contributors.ProjectAll | osf_pigeon/pigeon.py:276-292 | A successful projection has one record per contributor. |
| Contributors.ProjectAllElementwise | osf_pigeon/pigeon.py:276-292 | Each record is its contributor's projection, in order. |
| Contributors.ContributorsTransform | osf_pigeon/pigeon.py:274-293 | Succeeds exactly when the projection of `data` does. It replaces `data` by the records and keeps the links and meta of the response. |
| Contributors.ProjectOne | osf_pigeon/pigeon.py:277-290 | One pass of the loop body gives exactly that contributor's projection, or the first error raised on the way. |
| Contributors.GetContributors | osf_pigeon/pigeon.py:274-293 | The loop that appends one record per contributor equals `ContributorsTransform`, so it stops with the error that the projection of the contributors raises. |
| Contributors.ProjectAllFailsOnPrefix | osf_pigeon/pigeon.py:276-292 | Once the first k contributors fail to project, the whole projection fails with their error. |
| Contributors.ProjectAllSucceeds | osf_pigeon/pigeon.py:276-292 | When every contributor projects, the projection succeeds. |
| Contributors.ProjectAllFailsAtFirst | osf_pigeon/pigeon.py:276-292 | When contributor k fails and all before it project, the projection fails with contributor k's error. |
| Contributors.ProjectAllFailureIsFirst | osf_pigeon/pigeon.py:276-292 | A failed projection has a first failing contributor, all earlier ones projecting, and the error is that contributor's. |
| Contributors.ContributorsSucceedIffAllProject | osf_pigeon/pigeon.py:274-293 | `get_contributors` succeeds exactly when every contributor projects. |
| Contributors.ProjectApiContributor | osf_pigeon/pigeon.py:277-291 | An API-shaped contributor gives `{ORCiD: its orcid or null, name: its full name, affiliated_institutions: the names its link returns}`. |
| Contributors.ContributorsOnePerRecord | osf_pigeon/pigeon.py:276-293 | The output has one record per input contributor, in order, and the rest of the response is unchanged. |
| Metadata.BeforeFirstDot | osf_pigeon/pigeon.py:76 | `s.partition('.')[0]`: the longest prefix of s without a '.'. |
| Metadata.Convert | osf_pigeon/pigeon.py:77 | The fields are in range: year 1..9999, month 1..12, the day within its month (leap years included), hour ≤ 23, minute and second ≤ 59. Otherwise ValueError. |
| Metadata.ParseTimestamp | osf_pigeon/pigeon.py:77 | `strptime` either raises ValueError or yields a valid date and time. |
| Metadata.GetMetadata | osf_pigeon/pigeon.py:75-90 | Fails (ValueError) exactly when the timestamp does not parse. Otherwise the keys are exactly title, description, date and contributor, plus `external-identifier` exactly when the article DOI is non-empty. Title and description are copied. The contributor is "Center for Open Science". The date is the strftime of the parsed timestamp. The identifier is `urn:doi:` + the DOI. |
| Metadata.ParseZeroPadded | osf_pigeon/pigeon.py:77 | A zero-padded `YYYY-MM-DDTHH:MM:SS` naming a real time parses to the fields it spells. |
| Metadata.TokenizeZeroPadded | osf_pigeon/pigeon.py:77 | Such a timestamp splits at its five separators. |
| Metadata.FormatZeroPadded | osf_pigeon/pigeon.py:77-82 | strftime prints such a timestamp's first ten characters back. |
| Metadata.BeforeDotOfStamp | osf_pigeon/pigeon.py:76 | The fractional part after the first '.' is dropped. |
| Metadata.DateIsTimestampPrefix | osf_pigeon/pigeon.py:75-82 | For `YYYY-MM-DDTHH:MM:SS` or `YYYY-MM-DDTHH:MM:SS.f`, metadata succeeds and `date` is the first ten characters `YYYY-MM-DD`. |
| Metadata.ExternalIdentifierIffArticleDoi | osf_pigeon/pigeon.py:87-88 | `external-identifier` is present exactly when the article DOI is non-empty. |
| Sync.ModifyRun | osf_pigeon/pigeon.py:93-102 | Between 1 and max(retries,0)+1 calls are made. |
| Sync.IsDark | osf_pigeon/pigeon.py:97 | A call outcome is dark exactly when it is an ItemLocateError whose message contains the dark text. Such an outcome raises that ItemLocateError. Success and other exceptions are never dark. |
| Sync.ModifyRunShape | osf_pigeon/pigeon.py:93-102 | Every call but the last met the dark-item locate error. The last call's own error (or none) escapes. The run stops before the budget only on a call that was not the dark error. |
| Sync.ModifyMetadataWithRetry | osf_pigeon/pigeon.py:93-102 | The recursive retry on the item class. Its error is `ModifyRun`'s, including the ValueError of `time.sleep` when the first call is dark and `sleep_time` is negative. The item receives the identical metadata once per call. It sleeps `sleep_time` once per retry. |
| Sync.NegativeSleepRaises | osf_pigeon/pigeon.py:97-98 | With retries left and a negative `sleep_time`, a dark call ends the run: `time.sleep` raises ValueError after that one call. |
| Sync.AlwaysDarkExhaustsRetries | osf_pigeon/pigeon.py:96-102 | A permanently dark item is called `retries + 1` times, and the last ItemLocateError is re-raised. |
| Sync.DefaultDarkThreeCalls | osf_pigeon/pigeon.py:93-102 | With the default `retries=2`, a dark item gets 3 calls, then an ItemLocateError is raised. |
| Sync.DefaultLocateMessageIsDark | osf_pigeon/pigeon.py:97 | internetarchive's default ItemLocateError message, "Item cannot be located because it is dark or does not exist.", is dark. |
| Sync.DefaultLocateErrorThreeCalls | osf_pigeon/pigeon.py:93-102 | An item raising `ItemLocateError()` with its default message on every call gets 3 calls under the defaults, and that ItemLocateError escapes. |
| Sync.NotDarkIsFinal | osf_pigeon/pigeon.py:96-102 | Success, another locate error, or another exception ends the run after that one call, with that call's outcome. |
| Sync.NoRetriesOneCall | osf_pigeon/pigeon.py:97 | With `retries <= 0`, even a dark item is called only once. |
| Sync.SucceedsIffSucceededInBudget | osf_pigeon/pigeon.py:93-102 | The run succeeds exactly when some call within the budget succeeds after nothing but dark errors. |
| Sync.WithdrawnPatch | osf_pigeon/pigeon.py:340-341 | For withdrawn metadata, the keys gain `noindex` = True. Non-withdrawn metadata is returned unchanged. Every other key keeps its value. |
| Sync.NoindexIffWithdrawn | osf_pigeon/pigeon.py:340-341 | For metadata without `noindex`, the patch has `noindex` (= True) exactly when `moderation_state == "withdrawn"`. |
| Sync.WithdrawnPatchIdempotent | osf_pigeon/pigeon.py:340-341 | Applying the patch twice equals applying it once. |
| Sync.SyncMetadata | osf_pigeon/pigeon.py:337-343 | The caller's dict becomes the withdrawn patch of itself, and exactly that dict is sent with 2 retries and 60-second sleeps. |
| Archive.StripPrefix | osf_pigeon/pigeon.py:65 | When the path starts with the staging directory, the result is the rest of the path. |
| Archive.ZipName | osf_pigeon/pigeon.py:66 | The stored name never starts with '/'. A name without a leading '/' is kept unchanged. |
| Archive.EntryFor | osf_pigeon/pigeon.py:64-66 | The entry for a file reads from `os.path.join(root, file)`, and its name has no leading '/'. |
| Archive.DirEntries | osf_pigeon/pigeon.py:63-66 | One entry per file of a directory, in order, each for that file. |
| Archive.Entries | osf_pigeon/pigeon.py:62-66 | One entry per file found by the walk, none named with a leading '/'. |
| Archive.EntriesFromWalk | osf_pigeon/pigeon.py:62-66 | An entry is in the archive exactly when it is the entry of some file in some directory of the walk. |
| Archive.WriteDirectory | osf_pigeon/pigeon.py:63-66 | The inner loop appends exactly the entries for one directory's files to the archive, in order. |
| Archive.CreateZipData | osf_pigeon/pigeon.py:59-68 | The nested loops write exactly the entries `Entries` lists, in walk order. |
| Archive.TopLevelFileName | osf_pigeon/pigeon.py:64-66 | A file directly in the staging directory is stored under its bare name, e.g. `test_file.txt`. |
| Archive.NestedFileName | osf_pigeon/pigeon.py:64-66 | A file in sub-directory `sub` is stored as `sub/file`. |
| Archive.SingleFileArchive | osf_pigeon/pigeon.py:59-68 | A staging directory holding one file gives exactly one entry, named after the file. |
| Doi.FormatLiteral | osf_pigeon/pigeon.py:220 | Text without braces is copied through in front of the rest. |
| Doi.FormatField | osf_pigeon/pigeon.py:220 | `{name}` is replaced by its argument, or KeyError(name) when it is missing. |
| Doi.Format | osf_pigeon/pigeon.py:220 | `str.format` with named fields fails only with ValueError (unbalanced braces), IndexError (an empty or numbered field) or KeyError for a non-empty field name missing from the arguments. |
| Doi.BuildDoi | osf_pigeon/pigeon.py:219-220 | The DOI is `10.70102/fk2osf.io/` followed by the guid. |
| Doi.DoiOfGuid | osf_pigeon/pigeon.py:220 | Formatting `DOI_FORMAT` gives that text for any prefix argument. |
| Doi.BuildDoiIgnoresPrefix | osf_pigeon/pigeon.py:220 | The configured DataCite prefix does not affect the DOI. |
| Doi.BuildDoiInjective | osf_pigeon/pigeon.py:219-220 | Distinct guids get distinct DOIs. |
| Doi.BuildDoiUnderDatacitePrefix | osf_pigeon/pigeon.py:219-220 | Every DOI starts with `DATACITE_PREFIX` + "/". |
| Children.ChildIds | osf_pigeon/pigeon.py:196 | Succeeds exactly when every child is a dict with an `id`; otherwise TypeError or KeyError('id'). The root guid is never kept. Every other id occurs as often as in the listing. |
| Children.ChildGuids | osf_pigeon/pigeon.py:195-196 | On a list it is `ChildIds`. Otherwise only an empty dict or string succeeds. The root is never kept. |
| Children.ChildIdsMembership | osf_pigeon/pigeon.py:196 | An id is kept exactly when some child has it and it is not the root guid. |
| Children.ChildIdsAppend | osf_pigeon/pigeon.py:196 | The filter keeps listing order: filtering a concatenation is the concatenation of the filters. |
| Children.NoRootKeepsAll | osf_pigeon/pigeon.py:196 | Without the root in the listing, every id is kept, in order. |

## Left out

- HTTP requests:
  - `requests.get` and `raise_for_status` are not modelled; a response is
    its status and `Retry-After` header.
  - `response.json()` is a function parameter (`fetch`, `institutions`)
    from URLs to decoded bodies or errors.
  - The bearer-token header and its `assert` (lines 246-249) do not affect
    decisions and are not modelled.
- The `ratelimit` library's timing: `Fetch.SleepAndRetry` records the periods
  it would sleep, and `time.sleep` in `modify_metadata_with_retry` is a
  recorded sleep.
- Pagination's typed responses:
  - `Pagination.Response` is a typed record (`data`, `links.next`,
    `links.meta`, `meta`), so a missing `data` or `links` key in a page
    (KeyError) is not modelled. Neither is a page whose `links` or
    `links.meta` is JSON null: there `.get` is called on None and raises
    AttributeError (lines 300, 307-308), while the model reads such a page
    as one without the key.
  - `parse_json` is a function from such a record to a record or an error.
- `Pagination.CeilDiv`: `math.ceil(int(total) / int(per_page))` goes through
  a float division. The model uses the exact rational ceiling. The two can differ only
  when the numbers are beyond 2^53.
- `asyncio` scheduling is modelled as the sequential order it produces here.
  Because the model has no concurrency, it has no cancellation either.
- `Metadata.NodeAttributes` is typed:
  - Reading `registration.json` from disk is not modelled.
  - A missing `data`/`attributes`/field key (KeyError) and a non-text
    `date_created` are not modelled.
  - `article_doi` is `Some` text or `None` (null).
- `Metadata.ParseTimestamp` does not accept non-ASCII Unicode digits, which
  `strptime` accepts.
- `Metadata.FormatDate` pads the year to four digits. CPython's `strftime`
  output for years below 1000 depends on the platform.
- `Fetch.PyInt` trims only space, `\t`, `\n`, `\r`, `\x0b` and `\x0c`, as
  `int()` does for ASCII text. `int()` also trims `\x85`, `\xa0` and the
  other non-ASCII Unicode whitespace, and it accepts non-ASCII digits.
- `Archive.StripPrefix` strips the staging directory literally. The source
  builds an unescaped regular expression from it (line 65), so a directory
  name with regex metacharacters could match differently. The staging
  directory is a full path: `tempfile.gettempdir()` (from TMPDIR, TEMP or
  TMP, else a platform default), "/", then `tmp` and 8 characters from
  `[a-z0-9_]`. Only that last component is free of metacharacters, so a
  temporary-directory location holding them (a `.` or `+` in TMPDIR, say)
  is not modelled.
- `Archive.ZipName`: `zipfile` also applies `os.path.normpath` to the
  arcname. That normalisation is not modelled. The model keeps only the
  removal of leading separators.
- The ZIP byte format, `BytesIO`, the file contents, `bagit`, DataCite
  (`get_datacite_metadata`), `get_ia_item`, `upload`, `main`,
  `get_and_write_*`, and the recursive archival of children in
  `gather_children` (lines 198-216) are network, file-system or
  orchestration code and are not modelled. `osf_pigeon/__main__.py` is
  argument parsing and is not part of this model.
- `Sync.ArchiveItem`:
  - `modify_metadata`'s outcomes are classified into success, ItemLocateError
    with its message, and any other exception. The message of other
    exceptions is kept only for reporting.
  - internetarchive's default ItemLocateError message is written out as
    `Sync.DefaultLocateMessage`. That this is the library's text is taken
    from the library, which is not part of this model.
- `Sync.ModifyMetadataWithRetry`: the item records a copy of the metadata
  map on each call. Python passes the same dict object each time; nothing
  mutates it during the retries, so the copies are equal.
- `Doi.Format` models named fields and doubled braces only. Attribute and
  index access in field names, conversions (`!r`) and format specifications
  (`:>10`) are not modelled; `DOI_FORMAT` uses none of them.
- `Contributors.ContributorFields`: a non-text institutions href is a
  TypeError. `requests.get` would turn it into text and raise MissingSchema
  instead; either way an exception escapes and no record is made.
- `Children.ChildGuids` models `response.json()['data']` being given; the
  request itself is not modelled.
