# Staffeli in Dafny

Staffeli is a command-line client for the Canvas learning-management
system, used by teaching assistants. It clones a course into a working
directory, fetches students, groups and submissions, caches every Canvas
record in a `.staffeli.yml` file, and posts grades and feedback. Beside the
package (`staffeli/`) the repository holds two older client libraries
(`lib/canvas.py`, `src/canvas.py`) with the scripts built on them, a
stand-alone download script for one course (`subsets/linalg17`), and
three group-handling scripts (`contrib/groups`).

This project models the logic under the HTTP and file plumbing, and proves
what that logic promises:

- **Entity resolution** (`Listed`, and its near-copies in `StaffeliCanvas`,
  `LibCanvas`, `SrcCanvas` and `Linalg`). A record is picked by its first
  exact `id`, or by a unique case-insensitive substring match on `name`.
  Zero or several matches fail with the candidates listed.
- **Pagination** (`TypedCanvas`). The Link-header segment parser
  `<url>; rel="name"`, and the `_list_api` loop that follows the `next`
  links until `current == last`. The server is a map from URL to page.
- **Bounded upward file search** (`Files`, `LibCanvas`, `Upward`). Up to
  nine (or five) `..`-prefixed levels are probed. The cache file holding
  exactly the requested cache name is chosen. `CachableEntity` (`Cachable`)
  loads and persists entities through that search.
- **Request arguments** (`StaffeliCanvas.Req`, `TypedCanvas.ListReq`,
  `SrcCanvas.CallApiQuery`). The pair lists handed to `urlencode` are
  modelled.
- **Record transformations**:
  - the public (cached) forms of categories and courses;
  - the `StudentList` id index with its derived `kuid`;
  - `all_students`, and the duplicate-name check of `section_create`;
  - the section and submission dictionaries of the linalg17 script.
- **Small parsers and validators** (`Submission`, `Feedback`, `Cli`,
  `Resubmissions`, `TaSubs`, `Assignment`):
  - student ids from file names, and grade checks;
  - directory names of students, graders and assignments;
  - fetch-target splitting, and the skip rules of fetching;
  - the links made when splitting by groups.
- **Group files** (`GroupsFile`, `GroupsSearch`, `CreateGroups`,
  `SplitSections`):
  - parsing, and the search for a KU id;
  - creating the groups on Canvas, and linking each group to its one
    submitting member;
  - distributing groups into sections by their first member, and
    reporting the groups placed nowhere.

Conventions of the model:

- **Records.** A JSON/YAML value is the datatype `Common.Json`.
- **Disk.** A disk is `Os.FileSystem`, with its sets of files and
  directories, directory listings, parsed documents and symbolic links.
- **Mutation.** Code that mutates objects or the disk is a `method`:
  - `Os.Disk` holds the disk;
  - `Listed.ListedEntity`, `Cachable.CachableEntity`,
    `StaffeliCanvas.StudentList`, `StaffeliCanvas.ArgList` and the other
    classes hold their entities' fields.
  - Each method is proved against a recursive specification function, for
    example `ensures disk.fs == LinkedGroups(old(disk.fs), …).value`.
  - What the source promises is then proved about that function as
    lemmas.
- **Paths.** `os.path.join(a, b)` is `a + "/" + b` (`Os.PathJoin`).
- **Failures.** Every raised exception is an error result
  (`Common.Result`). Only which branch fails is modelled, with a cause
  text, not the exception class.
- **Outside inputs.** Canvas responses, directory listings and file
  contents are parameters.
- **Shared helpers.** Where two files share a helper, it is modelled once.
  `src/canvas.py`'s `_ppnames` coincides with `LibCanvas.PPNames`.
  `lib/canvas.py`'s `_req`, `_lookup_id`, `_lookup_name` and
  `Course.publicjson` are the older client's (`StaffeliCanvas`).
  The linalg17 script's `_req`, `_list_req`, `_parse_pagination_link` and
  `_list_api` are the typed client's (`TypedCanvas`) line for line.

## Model

| member | source | states |
|---|---|---|
| Common.Find | staffeli/listed.py:20 | the first position where the needle occurs, and none only when it occurs nowhere |
| Common.ContainsIffFound | staffeli/listed.py:20 | `needle in hay` holds exactly when a first occurrence exists |
| Common.JoinSplit | contrib/groups/groups-search.py:17-19 | joining the pieces of `s.split(sep)` with `sep` gives `s` back |
| Common.SplitPiecesFree | contrib/groups/groups-search.py:19 | no piece of a split contains the separator |
| Common.SplitJoin | contrib/groups/groups-search.py:19 | splitting undoes joining parts that do not hold the separator's first character |
| Common.ReplaceChar | staffeli/cli.py:159-160 | `str.replace` with one-character strings substitutes position by position |
| Common.SubstChar | staffeli/cli.py:160 | the result has the input's length, with exactly the occurrences of `c` replaced by `d` |
| Common.TrimLeft | contrib/groups/create-groups.py:26 | the left-stripped text is a suffix of the input that does not start with Python's white space (`str.isspace`: the ASCII controls 9-13 and 28-31, the space, NEL, NO-BREAK SPACE and the Unicode space, line and paragraph separators), and every character dropped in front is such white space |
| Common.TrimRight | contrib/groups/create-groups.py:26 | the right-stripped text is a prefix of the input that does not end with white space, in the same `str.isspace` sense, and every character dropped at the end is white space |
| Common.StripNoBreakSpace | contrib/groups/create-groups.py:26 | a leading NO-BREAK SPACE is stripped as Python strips it |
| Common.Prefix | staffeli/canvas.py:255 | `s[:n]` is a prefix of `s` of length `min(n, |s|)` |
| Common.Pad3 | contrib/groups/create-groups.py:36 | `'{:03d}'` gives at least three decimal digits, and a text longer than three has no leading zero |
| Common.NatToStringLead | contrib/groups/create-groups.py:36 | `str(n)` of a positive number does not start with `0` |
| Common.Pad3Value | contrib/groups/create-groups.py:36 | reading the zero-padded text back as digits gives the number |
| Common.Pad3Injective | contrib/groups/create-groups.py:36 | distinct numbers get distinct zero-padded texts |
| Common.ParseIntToString | staffeli/cli.py:229-234 | `int(str(n)) == n`: the text of every integer is accepted by `int()` |
| Common.NatToStringInjective | staffeli/canvasTA-subs.py:46 | distinct numbers have distinct `str()` texts |
| Common.IndexOfKeys | contrib/groups/create-groups.py:18-21 | a dictionary filled pair by pair has exactly the keys of the pairs |
| Common.IndexOfLastWins | contrib/groups/create-groups.py:18-21 | each key holds the value of the last pair carrying it |
| Common.IndexOfValue | contrib/groups/create-groups.py:18-21 | every value held is the value of a pair with that key that no later pair overrides |
| Common.Split | contrib/groups/groups-search.py:19 | `str.split(sep)` always yields at least one piece |
| Common.SplitAtFirst | contrib/groups/split-into-sections.py:36 | a text `a + sep + b` with no separator inside `a` splits into `a` and then the pieces of `b` |
| Common.SplitFree | staffeli/submission.py:21-22 | a text without the separator splits into itself alone |
| Common.SplitJoinChar | contrib/groups/groups-search.py:19 | splitting on one character undoes joining parts free of it |
| Common.IntToStringInjective | src/resubmissions.py:58 | distinct integers have distinct `str()` texts |
| Common.UnderscoreJoinInjective | subsets/linalg17/staffeli.py:215 | two `a_s` texts whose parts hold no `_` are equal only with equal parts |
| Os.Up | staffeli/files.py:28 | `k` prefixings of `..` lengthen the path by three characters each |
| Os.JoinUp2 | contrib/groups/create-groups.py:58 | `os.path.join('..', '..', p)` is `p` two levels up |
| Os.JoinUp3 | contrib/groups/split-into-sections.py:45 | `os.path.join('..', '..', '..', p)` is `p` three levels up |
| Os.LastSlash | staffeli/files.py:57 | finds the last `/` of a path, and none only when the path has no `/` |
| Os.DirnameJoin | staffeli/files.py:57 | `os.path.split` of a joined path gives back the directory and the name |
| Os.NormalizePathnameSpec | subsets/linalg17/staffeli.py:147-148 | `_normalize_pathname` keeps the length, replaces exactly the separators by `_`, leaves no separator, and is idempotent |
| Os.Ensured | contrib/groups/split-into-sections.py:34 | `os.makedirs(p, exist_ok=True)` succeeds exactly on a directory or a free path; afterwards `p` is a directory, an existing one is left alone, and nothing else changes |
| Os.Linked | contrib/groups/split-into-sections.py:45 | `os.symlink` succeeds exactly on a free path and adds only that link |
| Os.Disk.MakeDir | staffeli/cli.py:13-19 | `mknewdir`/`os.mkdir` refuses an existing path and otherwise adds an empty directory |
| Os.Disk.EnsureDir | src/resubmissions.py:40-45 | `mkdirp`: a directory is left alone, another existing path is refused, otherwise an empty directory is added; the same as `Ensured` |
| Os.Disk.MakeDirIfAbsent | staffeli/cli.py:9-11 | `mkdir` leaves any existing path alone and otherwise adds an empty directory |
| Os.Disk.WriteDoc | staffeli/cachable.py:29-32 | a dump adds the file with the document and changes nothing else |
| Os.Disk.Symlink | contrib/groups/create-groups.py:57-58 | a link is refused on an existing path and otherwise only that link is added; the same as `Linked` |
| Listed.IdOptions | staffeli/listed.py:9-10 | the offered options are one `"id (name)"` per entity, in list order |
| Listed.Names | staffeli/listed.py:30 | the name list holds every entity's name, in list order |
| Listed.IndexOfId | staffeli/listed.py:5-7 | finds the first position whose id equals the query, and none exactly when no entity carries it |
| Listed.LookupId | staffeli/listed.py:4-13 | the scan with early return computes `IdLookup`: the first entity with the id, otherwise the "no candidate" error |
| Listed.IdLookupSpec | staffeli/listed.py:4-13 | succeeds exactly when some entity has the id, then returns the first such entity (an element of the list); otherwise the error lists every entity as `"id (name)"` in order |
| Listed.CollectMatches | staffeli/listed.py:17-21 | the appending loop yields exactly the name matches, in list order |
| Listed.LookupName | staffeli/listed.py:16-35 | the method computes `NameLookup` |
| Listed.CollectNames | staffeli/listed.py:30 | the comprehension loop yields every name in order |
| Listed.NameMatchesMembers | staffeli/listed.py:19-21 | an entity is among the matches exactly when it is listed and its lower-cased name contains the lower-cased query |
| Listed.SoleMatch | staffeli/listed.py:19-35 | a list with one matching position yields exactly that entity as the only match |
| Listed.TwoMatches | staffeli/listed.py:19-23 | two matching positions give at least two matches |
| Listed.SingleMatch | staffeli/listed.py:23-35 | exactly one match holds exactly when one position matches, and that match is the entity there |
| Listed.NoMatches | staffeli/listed.py:29 | zero matches holds exactly when no position matches |
| Listed.NameLookupSpec | staffeli/listed.py:16-35 | succeeds exactly when one position matches and then returns that entity; several matches are an error listing their names; zero matches are an error listing every name |
| Listed.EmptyIsPrefix | staffeli/listed.py:20 | the empty query is contained in every name |
| Listed.EmptyQueryMatchesAll | staffeli/listed.py:19-21 | an empty query matches every entity |
| Listed.EmptyQueryAmbiguous | staffeli/listed.py:23-27 | an empty query over two or more entities fails listing all names |
| Listed.ExactNameStillAmbiguous | staffeli/listed.py:23-27 | a name equal to the query does not win over a second matching entity: the lookup fails with several candidates |
| Listed.ContainsSelf | staffeli/listed.py:20 | every name contains itself |
| Listed.ListedSelectSpec | staffeli/listed.py:39-53 | with a list: the name wins over the id, neither fails, and a success is an element of the list (the unique name match, or the first with the id); without a list the record loaded before is kept, and none fails |
| Listed.ListedEntity.constructor | staffeli/listed.py:48-50 | `id` and `displayname` are read off the chosen record |
| Listed.NewListedEntity | staffeli/listed.py:39-53 | succeeds exactly when `ListedSelect` does, holds that record with `id`/`displayname` equal to its `id`/`name`, and otherwise carries its error |
| Files.FirstInLevel | staffeli/files.py:24-27 | one round returns the first candidate, in list order, that exists as a file under the round's directory, and nothing only when none does |
| Files.FirstHitFromSpec | staffeli/files.py:23-28 | the rounds from `k` on return the first existing probe in round-then-candidate order, and nothing only when every probe of those rounds misses |
| Files.SearchLevels | staffeli/files.py:23-28 | the nested loops with early return compute `FirstHit`, with `parent` equal to `..`-prefixed `start` in round `i` |
| Files.FirstHitSpec | staffeli/files.py:9-28 | at most 9 rounds; a hit exists exactly when some probe `..`^k/`start`/name exists, and the hit is the first such probe, so a nearer level beats any farther one |
| Files.JoinMentions | staffeli/files.py:37 | each candidate appears in the `", "`-joined list |
| Files.NotFoundNameMentions | staffeli/files.py:30-37 | the not-found description (bare name, "either A or B", "either A, B, or C") names every candidate |
| Files.FindFile | staffeli/files.py:19-39 | returns the first hit, and fails exactly when every probe misses: with IndexError on `candidate_names[-1]` for an empty list, otherwise with the missing-argument failure of the two-argument call to the three-argument helper |
| Files.SingleNameAsList | staffeli/files.py:20-21 | a single string candidate is searched exactly like a one-element list |
| Files.FindStaffeliFile | staffeli/files.py:51-62 | the loop computes `StaffeliSearch` over 9 rounds: accept a model with exactly one key equal to the cache name, else resume from `dir/..` |
| Files.StaffeliSearchSound | staffeli/files.py:55-59 | an accepted result is `(dir, model)` of an existing `dir/.staffeli.yml` whose model is accepted, and a mapping model then has exactly the cache name as its keys |
| Files.AcceptedKeys | staffeli/files.py:58 | an accepted mapping has the key set `{cachename}` |
| Files.NoCacheFileFails | staffeli/files.py:39-62 | with no cache file on any probe the search fails with the missing-argument failure |
| Cachable.Index | staffeli/cachable.py:26 | `model[key]` succeeds exactly on a mapping holding the key and gives its value |
| Cachable.CachableEntity.constructor | staffeli/cachable.py:17-26 | the entity holds the given cache name, directory and JSON |
| Cachable.CachableEntity.Cache | staffeli/cachable.py:28-34 | writes the public JSON to `path/.staffeli.yml` for a directory and to `path` itself otherwise, and changes nothing else |
| Cachable.NewCachableEntity | staffeli/cachable.py:11-26 | succeeds exactly when `CacheLoad` does and then holds its directory and the value under the cache name; otherwise carries its error |
| Cachable.CacheLoadSpec | staffeli/cachable.py:15-26 | a directory goes through the walking search and yields the value of a `.staffeli.yml` in the returned directory whose only key is the cache name; `walk=False` on a directory always fails (extra argument); a file is loaded directly with its directory as `parentdir`; a path that is neither fails |
| Cachable.CacheRoundTrip | staffeli/cachable.py:15-30 | a cache file written into a directory under the cache name is what a walking lookup from that directory loads |
| Cachable.UnwrappedCacheReload | staffeli/cachable.py:36-37 | since the default `publicjson` is not wrapped, reloading its file reads the cache name as a key of the entity's own JSON |
| TypedCanvas.DictSet | staffeli/typed_canvas.py:35 | `args[key] = value`: the key then reads the value, every other key is unchanged, an existing key keeps its place and a new key goes last |
| TypedCanvas.Req | staffeli/typed_canvas.py:15-24 | the keyword arguments are the query pairs, as given and in order, with the `Bearer` token header |
| TypedCanvas.ListReq | staffeli/typed_canvas.py:31-36 | `per_page` is always 100, overwriting a caller's value, and every other argument is kept |
| TypedCanvas.ParseLinkRoundTrip | staffeli/typed_canvas.py:39-43 | `_parse_pagination_link('<u>; rel="r"')` is `(r, u)` when `u` has no `"` and `r` has no `;` |
| TypedCanvas.ParseLinkSeparatorOverlap | staffeli/typed_canvas.py:40 | the rel `; rel=` completes a second separator with the closing quote, so that segment fails the two-part unpacking |
| TypedCanvas.LinkMapSpec | staffeli/typed_canvas.py:82 | the rel map has exactly the rels of the segments as keys, and a rel that occurs twice takes the later url |
| TypedCanvas.MissingHeaderFails | staffeli/typed_canvas.py:80-81 | a missing `Link` header is the text `None`, which fails the segment parse |
| TypedCanvas.Segments | staffeli/typed_canvas.py:80 | one `<url>; rel="name"` segment per link, in order |
| TypedCanvas.Swap | staffeli/typed_canvas.py:43 | each `(url, rel)` becomes `(rel, url)`, in order |
| TypedCanvas.ParseSegments | staffeli/typed_canvas.py:81 | well-formed segments parse back to their `(rel, url)` pairs |
| TypedCanvas.SegmentNoComma | staffeli/typed_canvas.py:80 | a segment built from comma-free parts has no comma, so the header split keeps it whole |
| TypedCanvas.HeaderRoundTrip | staffeli/typed_canvas.py:80-82 | a header of comma-joined well-formed segments parses to the later-wins map of their rels |
| TypedCanvas.NextStepSpec | staffeli/typed_canvas.py:79-89 | without `all_pages` the loop stops; with it, it stops exactly on `current == last`, follows exactly the `next` url otherwise, and fails when `current` or `last` is missing |
| TypedCanvas.AfterEmpty | staffeli/typed_canvas.py:59 | starting with no requests and no entries changes no outcome |
| TypedCanvas.AfterAfter | staffeli/typed_canvas.py:64-68 | collecting one more page after earlier ones is collecting their concatenation |
| TypedCanvas.Paginate | staffeli/typed_canvas.py:58-90 | the `while True` loop, its `extend`/`append` and its `url`/`req` reassignment compute `Pages` for the decision rule given |
| TypedCanvas.ListApi | staffeli/typed_canvas.py:55-90 | `_list_api` computes `ListPages`: the requests sent and the entries or the failure |
| TypedCanvas.SinglePage | staffeli/typed_canvas.py:88-89 | without `all_pages` exactly one request is made, and its page's entries are the result |
| TypedCanvas.PagesCarryPerPage | staffeli/typed_canvas.py:58-87 | every request of the loop carries `per_page=100` and otherwise the caller's arguments |
| TypedCanvas.RequestsCarryPerPage | staffeli/typed_canvas.py:58-87 | every request `_list_api` sends carries `per_page=100` and otherwise the caller's arguments |
| TypedCanvas.PagesChain | staffeli/typed_canvas.py:60-89 | a successful run walked a chain of existing pages: each page's decision follows the next request's url, the last page stops, and the result is the pages' entries concatenated in order |
| TypedCanvas.ListPagesChain | staffeli/typed_canvas.py:55-90 | a successful paginated listing began at `url`, followed each page's `next`, ended on the only page with `current == last`, and concatenates the pages' entries in order |
| TypedCanvas.PagesOfChain | staffeli/typed_canvas.py:60-89 | conversely, over a closed chain of answered pages that the fuel covers, the loop succeeds, sends exactly the chain's requests and returns their entries in order |
| TypedCanvas.ListPagesOfChain | staffeli/typed_canvas.py:55-90 | the converse of `ListPagesChain`: a closed `next` chain from `url` within the fuel yields exactly its requests and their pages' entries |
| StaffeliCanvas.ArgList.constructor | staffeli/canvas.py:355 | the list holds the caller's pairs |
| StaffeliCanvas.KeywordQuery | staffeli/canvas.py:26-28 | keyword pairs are sent as `(value, key)` in dict order, followed by `('per_page', 9000)` |
| StaffeliCanvas.Req | staffeli/canvas.py:21-35 | with `_arg_list` the caller's own list gains `per_page` at its end and is what is sent; otherwise the swapped keywords plus `per_page` are sent; the url is `api_base + url_relative` with the `Bearer` token |
| StaffeliCanvas.SwapInvolution | staffeli/canvas.py:27 | swapping twice restores the pairs |
| StaffeliCanvas.SwappedKeyword | staffeli/canvas.py:27 | a keyword `name=x` reaches the server as parameter `x` with value `name`, and `name` is not sent as a parameter |
| StaffeliCanvas.IntendedKeywordQuery | staffeli/canvas.py:26-28 | the intended query keeps one pair per keyword plus `per_page` |
| StaffeliCanvas.IntendedKeywordQuerySpec | staffeli/canvas.py:26-28 | in the intended query each keyword is sent under its own name with its own value, and the written query is exactly its swap |
| StaffeliCanvas.DeleteKey | staffeli/canvas.py:198 | `del j[key]` succeeds exactly on a mapping holding the key and removes only that key |
| StaffeliCanvas.DeleteFromAllSpec | staffeli/canvas.py:197-198 | deleting from every category succeeds exactly when each is a mapping with the key, and removes just that key from each, in order |
| StaffeliCanvas.GroupCategoryList.constructor | staffeli/canvas.py:193 | the list holds the categories given |
| StaffeliCanvas.GroupCategoryList.PublicJson | staffeli/canvas.py:195-199 | the loop over the copy computes `CategoriesPublic`; `json` is not modified |
| StaffeliCanvas.DeleteFromAllPrefixErr | staffeli/canvas.py:197-198 | a failure on a prefix of the categories is the failure of the whole loop |
| StaffeliCanvas.CategoriesPublicSpec | staffeli/canvas.py:195-199 | the public form is `{'group_categories': ...}` holding every category without `is_member`, in order; it fails when a category lacks that field |
| StaffeliCanvas.CoursePublic | staffeli/canvas.py:235-238 | `{'course': json minus 'enrollments'}`, failing when `enrollments` is absent |
| StaffeliCanvas.CourseCacheRoundTrip | staffeli/canvas.py:235-238 | a course cached into a directory reloads from there as its JSON without `enrollments` |
| StaffeliCanvas.StudentId | staffeli/canvas.py:251-252 | `student['id']` as a dict key: present, and neither a list nor a mapping |
| StaffeliCanvas.StudentList.constructor | staffeli/canvas.py:247-249 | the roster is kept and `mapping` starts empty |
| StaffeliCanvas.StudentList.Index | staffeli/canvas.py:249-255 | the loop computes `Mapping`: the students as the loop leaves them, and the id index |
| StaffeliCanvas.MappingPrefixErr | staffeli/canvas.py:250-255 | a failing student ends the loop with that failure |
| StaffeliCanvas.MappingSpec | staffeli/canvas.py:250-255 | the loop runs to the end exactly when every student has a hashable id and a sliceable `sis_login_id` if any, and each student comes out tagged, in order |
| StaffeliCanvas.MappingKeys | staffeli/canvas.py:251-252 | the index holds exactly the ids of the students |
| StaffeliCanvas.MappingLastWins | staffeli/canvas.py:252 | an id maps to the last student carrying it, as the loop leaves that student |
| StaffeliCanvas.TaggedSpec | staffeli/canvas.py:253-255 | `kuid` is set to `sis_login_id[:6]` exactly when `sis_login_id` is present; otherwise the student is unchanged |
| StaffeliCanvas.AllStudents | staffeli/canvas.py:378-386 | the extending loop computes `AllStudentsOf`; each section adds what `list.extend` takes from its `students` |
| StaffeliCanvas.AllStudentsPrefixErr | staffeli/canvas.py:382-384 | a failing section ends the loop with that failure |
| StaffeliCanvas.AllStudentsAppend | staffeli/canvas.py:381-386 | the roster of two runs of sections is the first's followed by the second's: order and duplicates are kept, and the first failure wins |
| StaffeliCanvas.OneSection | staffeli/canvas.py:383-384 | a section adds its `students` list, or the characters of a `students` text as one-character strings; a section without the key adds nothing, and a `students` number, boolean or null fails |
| StaffeliCanvas.SectionNames | staffeli/canvas.py:361 | every section's `name`, in order, failing on a section without one |
| StaffeliCanvas.SectionCreateSpec | staffeli/canvas.py:359-368 | a section is created exactly when every existing section has a name and none equals the new one exactly; the request then names the new section |
| StaffeliCanvas.DuplicateBlocks | staffeli/canvas.py:361-365 | an existing section with exactly the new name blocks creation |
| StaffeliCanvas.Pairs | staffeli/canvas.py:484 | the i-th pair is `(args[2i], args[2i+1])` |
| StaffeliCanvas.Flatten | staffeli/canvas.py:484 | flattening yields two strings per pair |
| StaffeliCanvas.PairsRoundTrip | staffeli/canvas.py:484 | pairing and flattening are inverse |
| StaffeliCanvas.MainSpec | staffeli/canvas.py:478-498 | fewer than two arguments give the usage return; an odd number of name/value arguments fails; a call sends the pairs, which flatten back to the arguments after the URL, followed by `per_page` |
| LibCanvas.FindFile | lib/canvas.py:324-342 | returns the first hit of the 9-level search; when every probe misses it fails naming the candidates (an empty list fails on `cs[-1]`) |
| LibCanvas.FindFileNames | lib/canvas.py:335-342 | the failure names every candidate |
| LibCanvas.FindStaffeliYml | lib/canvas.py:174-185 | the loop computes `StaffeliYml`: the model of the first found file holding exactly the cache name, resuming from `dir/..`, for at most 9 rounds |
| LibCanvas.StaffeliYmlAgrees | lib/canvas.py:174-185 | this lookup accepts exactly the file `find_staffeli_file` accepts and returns its model rather than its directory; where that one fails on the helper's arity, this one reports the missing cache file |
| LibCanvas.CachedEntity.constructor | lib/canvas.py:188-190 | the entity holds the cache name and JSON given |
| LibCanvas.NewCachedEntity | lib/canvas.py:188-190 | succeeds exactly when a model is found and holds the cache name, and then holds the value under it |
| LibCanvas.CachedRoundTrip | lib/canvas.py:174-197 | a cache file written into a directory is the model the lookup from there returns |
| LibCanvas.PPNames | lib/canvas.py:132-133 | the list is enclosed in double quotes |
| LibCanvas.PPNamesRoundTrip | lib/canvas.py:132-133 | names without `"` are read back from their quoted, `", "`-separated list |
| LibCanvas.PPNamesSmall | lib/canvas.py:132-133 | one name is quoted on its own and the empty list gives `""` |
| LibCanvas.NewNamedEntity | lib/canvas.py:202-213 | neither name nor id fails; otherwise the name wins over the id, the result is the `_lookup_*` outcome, and `id`/`displayname` are read off the record |
| SrcCanvas.CallApiQuery | src/canvas.py:16-21 | the `_arg_list` is sent as it is, otherwise the keywords under their own names, with no `per_page` added |
| SrcCanvas.CallApiIsIntended | src/canvas.py:16-21 | these queries are the older client's intended ones without its trailing `per_page` |
| SrcCanvas.LookupName | src/canvas.py:141-161 | the method computes `SrcNameLookup` |
| SrcCanvas.SrcNameLookupAgrees | src/canvas.py:141-161 | wherever some entity matches this lookup agrees with the listed module's; with no match it fails on the undefined name instead of listing candidates |
| SrcCanvas.NoEntitiesUndefinedName | src/canvas.py:155-159 | with no entities the lookup fails on the undefined `key`; with entities but no match, on the undefined `attr` that the comprehension meets first |
| SrcCanvas.NewNamedEntity | src/canvas.py:163-174 | the name wins over the id, neither fails, and `id`/`displayname` are read off the record found |
| SrcCanvas.FirstSectionStudents | src/canvas.py:240-246 | `sections[0]['students']` succeeds exactly on a non-empty list whose first section has students, and gives that section's students |
| SrcCanvas.FirstSectionOnly | src/canvas.py:240-246 | for one section this roster is the older client's; with more sections the others' students are missing |
| SrcCanvas.MainAgrees | src/canvas.py:312-332 | the two command lines accept the same arguments, the pairs flatten back to the arguments after the URL, and only the older one appends `per_page` |
| Linalg.FindKey | subsets/linalg17/staffeli.py:160-174 | the appending loop and its two failure branches compute `KeyLookup` |
| Linalg.Keyed | subsets/linalg17/staffeli.py:160-165 | the keys as entities named by them, numbered by position |
| Linalg.KeyMatchesAsNames | subsets/linalg17/staffeli.py:161-165 | the candidates are the names of the entities the listed name lookup matches |
| Linalg.FindKeyAsNameLookup | subsets/linalg17/staffeli.py:160-174 | `_find_key` is the name lookup over the keys: the same unique match, and the same candidate lists in its failures |
| Linalg.KeyLookupSpec | subsets/linalg17/staffeli.py:160-174 | a key is a candidate exactly when it contains the needle ignoring case; the lookup succeeds exactly on one candidate and returns it |
| Linalg.SectionPairs | subsets/linalg17/staffeli.py:125 | the comprehension inserts `(name, id)` for each section, in order, and fails exactly when a section lacks either or has an unhashable name |
| Linalg.StudentItems | subsets/linalg17/staffeli.py:128 | `r['students']` is present, and a list is iterated element by element |
| Linalg.TagOne | subsets/linalg17/staffeli.py:129-130 | a student gets `section` set to the section's name and is filed under its hashable `id` |
| Linalg.TagAllSpec | subsets/linalg17/staffeli.py:128-130 | the inner loop files every student of the section, in order, and fails exactly when one of them fails |
| Linalg.FileStudents | subsets/linalg17/staffeli.py:128-130 | the inner loop over one section succeeds exactly when `TagAll` does, and then extends the student dictionary with that section's tagged students; its failure is `TagAll`'s |
| Linalg.GetSections | subsets/linalg17/staffeli.py:121-131 | the nested loops compute `GetSectionsOf`: the name-to-id dictionary and the id-to-student dictionary |
| Linalg.TagAllPrefixErr | subsets/linalg17/staffeli.py:128-130 | a failing student ends the inner loop with that failure |
| Linalg.StudentEntriesPrefixErr | subsets/linalg17/staffeli.py:127-130 | a failing section ends the outer loop with that failure |
| Linalg.StudentEntriesAppend | subsets/linalg17/staffeli.py:127-130 | two runs of sections file the first run's students, then the second's |
| Linalg.StudentEntriesThen | subsets/linalg17/staffeli.py:127-130 | two runs of sections give the first run's pairs followed by the second's, or the first failure met in order |
| Linalg.StudentEntriesSnoc | subsets/linalg17/staffeli.py:127-130 | one more section adds its own students after the earlier ones |
| Linalg.EntriesListed | subsets/linalg17/staffeli.py:127-130 | every filed id comes from a section that lists a student with that id |
| Linalg.LastSectionWins | subsets/linalg17/staffeli.py:127-131 | a student is filed under its id and tagged with the name of the last section listing it |
| Linalg.LastSectionRecord | subsets/linalg17/staffeli.py:127-131 | the record filed under an id is the last student with that id, with `section` set to its section's name and nothing else changed |
| Linalg.SectionHolds | subsets/linalg17/staffeli.py:128-130 | a section files each of its students under its id |
| Linalg.SectionValue | subsets/linalg17/staffeli.py:129-130 | everything a section files is tagged with that section's name |
| Linalg.SectionIdsSpec | subsets/linalg17/staffeli.py:125 | each name maps to the id of the last section with that name |
| Linalg.SectionNamesAreKeys | subsets/linalg17/staffeli.py:125 | the dictionary's keys are exactly the sections' names |
| Linalg.SubmissionPairs | subsets/linalg17/staffeli.py:144 | the comprehension inserts `(user_id, submission)` for each submission, in order, failing exactly on a missing or unhashable `user_id` |
| Linalg.SubmissionsByUserSpec | subsets/linalg17/staffeli.py:140-144 | the keys are exactly the `user_id`s, and each holds the last submission with that id |
| Linalg.SlashedSectionMissesDir | subsets/linalg17/staffeli.py:206-216 | for a section name with a `/`, the folder's parent is none of the section directories the script created |
| Linalg.SlashedSectionExample | subsets/linalg17/staffeli.py:206-216 | section `a/b`, login `abc123@ku.dk`, user 7: the folder is `A1/a/b/abc123_7`, whose parent `A1/a/b` is not the created `A1/a_b` |
| Linalg.IntendedFolderInSectionDir | subsets/linalg17/staffeli.py:206-216 | the intended folder of a filed student lies in the directory created for its section, which is a key of the section dictionary |
| Linalg.FolderNameInjective | subsets/linalg17/staffeli.py:213-215 | distinct user ids give distinct folder names when the login prefixes hold no `_` |
| Cli.CheckGradeSpec | staffeli/cli.py:229-239 | a grade is accepted exactly when it is `pass`/`fail` or `int()` parses it, and is returned unchanged; every integer's text is accepted |
| Cli.CheckGradeMonotone | staffeli/cli.py:230-233 | a longer list of good grades accepts everything a shorter one does, with the same result |
| Cli.CliGradesExamples | staffeli/cli.py:229-239 | `pass` and `fail` are accepted; the empty text is refused |
| Cli.MappingFiledById | staffeli/canvas.py:247-255 | the roster mapping files each student record under that record's own `id` |
| Cli.StudentDirnameAgrees | staffeli/cli.py:156-157 | `student_dirname` of a roster entry is the `kuid_id` name `fetch_sub` gives the same student's folder |
| Cli.FirstSlash | staffeli/cli.py:127-128 | the position of the first `/`, and none exactly when there is no `/` |
| Cli.LeadingSlashes | staffeli/cli.py:141 | the length of the run of `/` that starts the text |
| Cli.TrailingSlashes | staffeli/cli.py:141 | the length of the run of `/` that ends the text |
| Cli.StripSlashes | staffeli/cli.py:141 | `strip('/')` is a slice of the input with no `/` at either end, everything outside the slice is `/`, and a text without `/` is unchanged |
| Cli.FetchSplit | staffeli/cli.py:125-130 | `what/suffix rest` fetches exactly as `what suffix rest`: the first `/` splits the target and the suffix becomes the first argument |
| Cli.FirstSlashAfter | staffeli/cli.py:127-128 | behind a prefix free of `/`, the first `/` is the first `/` of the rest, shifted by the prefix |
| Cli.FetchSubsExamples | staffeli/cli.py:137-142 | `subs` alone fetches all assignments, `subs/` names the empty assignment, and `subs/x` fetches as `subs x` |
| Cli.Keep | staffeli/cli.py:64-65 | an assignment is read exactly when it has a `grading_type`, and kept exactly when that is not `not_graded` |
| Cli.SelectGraded | staffeli/cli.py:63-71 | the loop with its `continue` selects exactly what `Graded` selects, failing on the first assignment without a `grading_type` |
| Cli.GradedPrefixErr | staffeli/cli.py:63-65 | a failure in the first assignments is the failure of the whole loop |
| Cli.GradedSpec | staffeli/cli.py:63-65 | when every assignment has a `grading_type`, exactly the ones not `not_graded` are fetched |
| Cli.GradedAppend | staffeli/cli.py:63-65 | selecting from two runs of assignments selects from each in turn, in order |
| Cli.FetchSub | staffeli/cli.py:83-103 | the decision is `SubDecision`; the disk is unchanged unless a folder is due (`MadeFolder`), and then the folder is made if absent and the submission cached in it, also when the no-attachment branch then fails on `preview_url` |
| Cli.SubDecisionSpec | staffeli/cli.py:85-103 | a submission is skipped exactly when its user is not on the roster or has no `kuid` and it has a `preview_url`; attachments are fetched exactly when not metadata-only and present; a skip or a missing attachment list without `preview_url` fails with KeyError; the folder `path/kuid_id` is made exactly for a named student |
| Cli.FetchSubLeavesCache | staffeli/cli.py:93-95 | a fresh submission folder ends up a directory holding the cached submission |
| Cli.LinkTeam | staffeli/cli.py:182-188 | the member loop changes the disk exactly as `LinkMembers` says, and fails exactly when it does |
| Cli.LinkMembersPrefixErr | staffeli/cli.py:182-188 | a failure for an earlier member is a failure of the team |
| Cli.LinkMembersSpec | staffeli/cli.py:182-188 | only links are added; each new link belongs to a member whose submission folder exists and points three levels up to it, and every such member gets its link |
| Submission.Count | staffeli/submission.py:20 | `count('_')` is at most the length and is zero exactly when the character is absent |
| Submission.CountAppend | staffeli/submission.py:20 | counting over a concatenation adds the two counts |
| Submission.ScanForId | staffeli/submission.py:19-23 | the loop over the listing returns at the first qualifying name, giving what `FirstId` gives |
| Submission.FirstIdSpec | staffeli/submission.py:19-24 | no outcome exactly when no name has three `_`; otherwise the outcome is that of the first name that has |
| Submission.SplitUnderscore | staffeli/submission.py:22 | splitting `a_b` on `_`, with `a` free of `_`, gives `a` and then the pieces of `b` |
| Submission.DigitsNoUnderscore | staffeli/submission.py:23 | the text of an integer holds no `_` |
| Submission.ThreeUnderscores | staffeli/submission.py:20 | a name built from a separator, the id and a rest with two further `_` qualifies |
| Submission.IdOfSecondField | staffeli/submission.py:21-23 | when the `_late_`-free name is `a_d_b` with `a`, `d` free of `_`, the id is `int(d)` |
| Submission.CanvasNameId | staffeli/submission.py:19-23 | a download name `login_id_rest` qualifies and yields the user id |
| Submission.ReplaceLate | staffeli/submission.py:21 | replacing the single `_late_` after a login free of `_` gives `login_rest` |
| Submission.LateCanvasNameId | staffeli/submission.py:19-23 | a late download name `login_late_id_rest` yields the user id too |
| Submission.FindStudentId | staffeli/submission.py:13-24 | computes `StudentIdOf`: the `canvas.yaml` entry when the file is there, otherwise the scan of the listing, failing naming the folder |
| Submission.StudentIdSpec | staffeli/submission.py:13-24 | a readable `canvas.yaml` decides the id; without one and without a qualifying name the lookup fails naming the folder |
| Submission.GroupFileFails | staffeli/submission.py:5-9 | as written, a folder with `canvas_group.json` always fails: `json` is never imported |
| Submission.FindStudentIds | staffeli/submission.py:5-11 | computes the intended `find_student_ids`: the group file's contents when present, the single id otherwise |
| Submission.IntendedStudentIdsSpec | staffeli/submission.py:5-11 | the intended lookup returns a readable group file's contents, and without one agrees with the code as written on the single id |
| Upward.Located | src/assignment.py:8-12 | a miss becomes a `LookupError`, a hit is returned as found |
| Upward.ConfigDirFromSpec | src/assignment.py:8-11 | the remaining rounds miss exactly when no remaining level holds the file, and otherwise return the nearest level that does |
| Upward.ConfigDirSpec | src/assignment.py:7-12 | the probe-first search returns the nearest of `start`, `../start`, … (five levels) holding the file, misses exactly when none does, and returns `start` itself when it holds the file |
| Upward.UpShift | src/feedback.py:69 | prepending `..` once more equals starting one level up |
| Upward.FindUpperFromShift | src/feedback.py:68-71 | round `k` of the prepend-first search is round `k` of the probe-first search from `../start` |
| Upward.FindUpperShift | src/feedback.py:67-72 | `find_upper_canvas_dir(p)` is the probe-first search started at `../p` |
| Upward.FindUpperSpec | src/feedback.py:67-72 | the prepend-first search returns the nearest of `../start` … five levels up holding the file, misses exactly when none does, and never returns the start directory |
| Upward.SearchConfigDir | staffeli/canvasTA-subs.py:7-12 | the probe-then-prepend loop of `config_dir` and `canvas_yaml_dir` computes `ConfigDir` and raises on a miss |
| Upward.SearchUpper | src/feedback.py:67-72 | the prepend-then-probe loop computes `FindUpper` and raises on a miss |
| Assignment.GetCwdAssignment | src/assignment.py:14-25 | computes `CwdTarget`: both searches, both yaml reads and both ids, with every failure passed on |
| Assignment.CwdTargetSpec | src/assignment.py:14-25 | the assignment directory is the nearest `canvas.yaml` holder from `.`, the course directory is a level above `adir/..` and never the assignment directory, and each id is read from its own directory |
| Feedback.FeedbackGradesWider | src/feedback.py:49-58 | this check accepts every grade the command-line check accepts, unchanged, and also `complete` and `incomplete`, which that one refuses |
| Feedback.Refused | staffeli/cli.py:229-238 | a lower-case word longer than four letters is refused by the command-line check |
| Feedback.NotANumber | src/feedback.py:52-53 | `int()` refuses a text starting with a lower-case letter |
| Feedback.TrimRightBlank | src/feedback.py:52-53 | a text that right-strips to nothing is all white space |
| Feedback.FindStudentId | src/feedback.py:39-47 | computes `StudentIdOf`: the first name with three `_` decides, and no such name fails on the undefined `exit_badpath` |
| Feedback.IntendedStudentIdSpec | src/feedback.py:27-29 | the lookup as intended, calling `_exit_badpath`, exits with status 1 exactly when no listed name qualifies, where the script as written fails on the undefined name, and agrees with it everywhere else |
| Feedback.StudentIdAgrees | src/feedback.py:39-47 | without a `canvas.yaml` this is the package's lookup except that the no-match failure is the undefined name; that failure happens exactly when no listed name qualifies |
| Feedback.FindStudentIds | src/feedback.py:31-37 | computes `StudentIdsOf`: the group file's contents when present, otherwise the singleton id |
| Feedback.StudentIdsSpec | src/feedback.py:31-37 | with a group file this is the package's lookup as intended; without one it succeeds exactly when the single lookup does, giving its singleton |
| Feedback.GetAssignment | src/feedback.py:74-88 | computes `FeedbackTarget`: both upward searches, both ids and the token, every failure passed on |
| Feedback.FeedbackTargetSpec | src/feedback.py:74-88 | the assignment directory is one to five levels above `.`, never `.`, and is where the probe-first search from `../.` stops; the course directory lies one to five levels above it; the token is read beside the course's `canvas.yaml` |
| Resubmissions.Stale | src/resubmissions.py:31 | the flag is read exactly when present, and the test holds exactly for `False` or `0`, which Python's `== False` equates |
| Resubmissions.GetResubs | src/resubmissions.py:28-33 | the loop collects exactly `Resubs`, failing on the first submission without the flag |
| Resubmissions.ResubsPrefixErr | src/resubmissions.py:30-32 | a failure in the first submissions fails the whole loop |
| Resubmissions.ResubsSpec | src/resubmissions.py:28-33 | with every submission flagged, the resubmissions are exactly the submissions whose grade does not match the current submission |
| Resubmissions.ResubsAppend | src/resubmissions.py:30-32 | two runs give their resubmissions one after the other, so the original order is kept |
| Resubmissions.GraderId | src/resubmissions.py:50 | a resubmission contributes its `grader_id`, which must be present and hashable |
| Resubmissions.CollectGraderIds | src/resubmissions.py:47-51 | the loop builds exactly `GraderIds` |
| Resubmissions.GraderIdsPrefixErr | src/resubmissions.py:49-50 | a failure in the first resubmissions fails the whole loop |
| Resubmissions.GraderIdsSpec | src/resubmissions.py:47-51 | the set is defined exactly when every resubmission has a hashable `grader_id`, and then holds exactly those ids |
| Resubmissions.KeepAlnum | src/resubmissions.py:57 | the filtered name is no longer than the input and holds only ASCII letters and digits |
| Resubmissions.KeepAlnumAppend | src/resubmissions.py:57 | filtering a concatenation filters each part and keeps their order |
| Resubmissions.KeepAlnumOne | src/resubmissions.py:57 | a single character is kept exactly when it is an ASCII letter or digit |
| Resubmissions.KeepAlnumKeeps | src/resubmissions.py:57 | a name of letters and digits only is kept whole |
| Resubmissions.LowerAlnum | src/resubmissions.py:57 | lower-casing letters and digits leaves letters and digits and no upper-case letter |
| Resubmissions.GraderNameSpec | src/resubmissions.py:56-59 | the directory name is the lower-case letters and digits of the user name, then `_` and the id; that part holds no `_` and no `/`, and filtering it again changes nothing |
| Resubmissions.LowerIdempotent | src/resubmissions.py:57 | a text without upper-case letters is its own lower-case form |
| Resubmissions.FirstUnderscoreInjective | src/resubmissions.py:58 | equal texts `a_s` with `a` free of `_` have equal heads and tails |
| Resubmissions.GraderNamesDistinct | src/resubmissions.py:56-59 | graders with different ids get different directory names, whatever their user names |
| Resubmissions.GraderNames | src/resubmissions.py:53-60 | succeeds exactly when every grader is known, and maps each id, and only those, to its directory name |
| Resubmissions.DownloadResub | src/resubmissions.py:62-77 | the folder `base/grader/str(user_id)` is left alone when a directory, refused when something else exists there, created otherwise; a resubmission without `attachments` then fails with the folder made and nothing written, otherwise it is written as the folder's `canvas.yaml` and nothing else changes |
| Resubmissions.ResubDirSpec | src/resubmissions.py:63-67 | for an integer user id the folder lies in that grader's directory and is named by the id |
| Resubmissions.IntToStringNoSlash | src/resubmissions.py:66 | the text of an integer holds no `/` |
| Resubmissions.ResubDirsDistinct | src/resubmissions.py:63-67 | two resubmissions with one folder have the same user id |
| Resubmissions.ResubRoundTrip | src/resubmissions.py:75-77 | the written `canvas.yaml` makes the submission lookup of that folder return the resubmission's `user_id` |
| TaSubs.SanitizeSpec | staffeli/canvasTA-subs.py:15 | the length is kept, exactly the characters outside `[a-zA-Z0-9-]` become `_`, no `/` is left, and applying it twice changes nothing |
| TaSubs.DirName | staffeli/canvasTA-subs.py:14-20 | succeeds exactly when nothing exists under the sanitised name, and then returns that name |
| TaSubs.SanitizeKeeps | staffeli/canvasTA-subs.py:15 | a name of kept characters only is its own directory name |
| TaSubs.GetSetId | staffeli/canvasTA-subs.py:23-31 | the loop, with its renaming on every round, computes `SetId` |
| TaSubs.SetIdSpec | staffeli/canvasTA-subs.py:26-31 | for a name the alias leaves alone, the lookup succeeds exactly when a set of that exact name comes after well-formed sets of other names, and returns its id |
| TaSubs.AliasLookup | staffeli/canvasTA-subs.py:24-25 | the query `Dybber/Athas gruppe-test` is looked up as `ass1` |
| TaSubs.MakeSubDirs | staffeli/canvasTA-subs.py:44-50 | the loop changes the disk exactly as `MadeSubDirs` says, and fails exactly when a numbered folder exists already |
| TaSubs.MadeSubDirsPrefixErr | staffeli/canvasTA-subs.py:45-47 | a refused round fails the whole loop |
| TaSubs.SubPathsDistinct | staffeli/canvasTA-subs.py:46-48 | distinct indices give distinct folders and distinct `canvas.yaml` paths, and no folder is a `canvas.yaml` path |
| TaSubs.MadeSubDirsSpec | staffeli/canvasTA-subs.py:44-50 | where no numbered folder exists, the first `n` rounds leave folders `0` .. `n-1`, each holding its submission, and no later folder |
| TaSubs.SubDirsRoundTrip | staffeli/canvasTA-subs.py:44-50 | every numbered folder reads back, through the submission lookup, as its submission's `user_id` |
| GroupsFile.ParseGroups | contrib/groups/groups-search.py:17-19 | the stripped contents split into at least one group, each with at least one member |
| GroupsFile.ParseGroupsSpec | contrib/groups/groups-search.py:17-19 | the members hold neither a space nor a newline, and rendering the groups gives back the stripped contents |
| GroupsFile.LineGroupsSpec | contrib/groups/groups-search.py:19 | splitting any text into lines and members gives members free of spaces and newlines that render back to that text |
| GroupsFile.LineSpec | contrib/groups/groups-search.py:19 | one newline-free line splits into space- and newline-free members that join back to the line |
| GroupsFile.SplitPiecesIn | contrib/groups/groups-search.py:19 | every character of a piece is a character of the text split |
| GroupsFile.JoinHead | contrib/groups/groups-search.py:17-19 | a join starts with the first character of its first part |
| GroupsFile.JoinLast | contrib/groups/groups-search.py:17-19 | a join ends with the last character of its last part |
| Common.StripKeeps | contrib/groups/groups-search.py:17 | a text without `str.isspace` white space at either end strips to itself |
| GroupsFile.ParseRender | contrib/groups/groups-search.py:17-19 | rendering well-formed groups (members non-empty and without white space) and parsing the text gives the groups back |
| GroupsFile.FirstWithNameSpec | contrib/groups/create-groups.py:30-33 | `next(filter(...))` succeeds exactly when some record is the first named `name`, after only named records of other names, and returns that record |
| GroupsFile.GroupPathInjective | contrib/groups/create-groups.py:44-46 | distinct groups get distinct numbered folders under one base |
| GroupsSearch.Report | contrib/groups/groups-search.py:21-23 | one line per hit, line `i` the zero-padded number of hit `i` |
| GroupsSearch.Search | contrib/groups/groups-search.py:16-25 | the loop prints exactly the reports of the groups listing the id, and the status is 0 |
| GroupsSearch.SearchGroups | contrib/groups/groups-search.py:21-23 | over the parsed groups, the lines printed are exactly the zero-padded numbers of the groups listing the id, in order |
| GroupsSearch.HitsMember | contrib/groups/groups-search.py:21-22 | a group number is reported exactly when that group lists the id, by exact string equality |
| GroupsSearch.HitsSpec | contrib/groups/groups-search.py:21-25 | the reported numbers are strictly ascending, and an id in no group reports nothing |
| GroupsSearch.ReportDistinct | contrib/groups/groups-search.py:23 | two equal printed lines come from the same group number |
| CreateGroups.ShortIdFromSpec | contrib/groups/create-groups.py:20 | the lazy match from capture length `k` on succeeds exactly when an `@` at position `k` or later ends a newline-free capture with no earlier `@`, and captures up to the first such `@` |
| CreateGroups.ShortIdSpec | contrib/groups/create-groups.py:20 | `re.match('^(.+?)@', login)` matches exactly when a first `@` after position 0 follows a newline-free prefix, and captures the text before it |
| CreateGroups.ShortIdOfAddress | contrib/groups/create-groups.py:16-20 | a KU address `user@domain` maps to `user` |
| CreateGroups.BuildUserIds | contrib/groups/create-groups.py:18-21 | the module-level loop builds exactly `UserIdsOf`, failing on the first student whose login does not match |
| CreateGroups.UserIdsPrefixErr | contrib/groups/create-groups.py:19-21 | a failure in the first students fails the whole loop |
| CreateGroups.UserIdsSpec | contrib/groups/create-groups.py:18-21 | the dictionary is built exactly when every student's round succeeds, and is the pairs filled in order |
| CreateGroups.UserIdsLookup | contrib/groups/create-groups.py:18-21 | the keys are exactly the short logins, and each holds the id of the last student with that short login |
| CreateGroups.GroupNameInjective | contrib/groups/create-groups.py:36 | groups of one category get distinct names |
| CreateGroups.MemberIds | contrib/groups/create-groups.py:37 | the member ids exist exactly when every member is known, are then the members' ids in order, and otherwise fail with a `KeyError` for an unknown member |
| CreateGroups.RequestsPrefixErr | contrib/groups/create-groups.py:35-40 | a failing group fails the whole loop |
| CreateGroups.SendGroups | contrib/groups/create-groups.py:35-40 | the loop sends the requests `Requests` says; on failure, the requests sent are those of the groups before the failing one, and the failure is that group's `KeyError` |
| CreateGroups.RequestsSpec | contrib/groups/create-groups.py:35-40 | all groups are requested exactly when every member is known; request `i` is then for group `i`, named after the category with the group's number and carrying its members' ids in order |
| CreateGroups.MatchingSpec | contrib/groups/create-groups.py:49-51 | the glob finds nothing exactly when no name fits, and one path exactly when one name fits, that name under the directory |
| CreateGroups.MemberFolderSpec | contrib/groups/create-groups.py:49-52 | a member has a folder exactly when the submissions directory lists exactly one name starting with the member and `_`, and it is that name |
| CreateGroups.SubmittedFoldersPrefixErr | contrib/groups/create-groups.py:48-55 | a failing member ends the member loop with that failure |
| CreateGroups.FindSubmitter | contrib/groups/create-groups.py:47-57 | the member loop and the final assert compute `Submitter` |
| CreateGroups.SubmittedFoldersErr | contrib/groups/create-groups.py:48-55 | any failing member fails the loop |
| CreateGroups.SomesCount | contrib/groups/create-groups.py:53-56 | no folder is collected exactly when no member has a hand-in, and exactly one exactly when a single member has, which is then the one collected |
| CreateGroups.SubmittedFoldersSomes | contrib/groups/create-groups.py:47-55 | without failures, the collected folders are the hand-in folders of the members, in order |
| CreateGroups.SubmitterSpec | contrib/groups/create-groups.py:47-57 | a group has a submitter exactly when every member has one readable folder and exactly one member's folder has more than one entry; the submitter is that folder |
| CreateGroups.SubmittedFoldersFrame | contrib/groups/create-groups.py:48-55 | the search depends only on directories and their listings, so links made earlier do not change it |
| CreateGroups.LinkedGroupsPrefixErr | contrib/groups/create-groups.py:45-58 | a failing group fails the local loop |
| CreateGroups.LinkGroups | contrib/groups/create-groups.py:45-58 | the local loop changes the disk exactly as `LinkedGroups` says, and fails exactly when it does |
| CreateGroups.LinkedGroupsSpec | contrib/groups/create-groups.py:45-58 | linking succeeds exactly when every group has a submitter and no numbered path exists; only links change, group `i`'s path points two levels up into its submitter's folder, and other links are kept |
| CreateGroups.EnsuredElsewhere | contrib/groups/create-groups.py:44 | making the group directory does not change whether a longer path exists |
| CreateGroups.Create | contrib/groups/create-groups.py:23-60 | succeeds exactly when both the Canvas plan and the local side succeed; the requests sent are the plan, the disk is the local result, and a Canvas-side failure leaves the disk unchanged |
| CreateGroups.CreatedLocallySpec | contrib/groups/create-groups.py:43-58 | the local side succeeds exactly when the group directory can be made, every group has a submitter and no numbered entry exists; the directory then exists and entry `i` links to group `i`'s submitter's folder |
| SplitSections.LineEnd | contrib/groups/split-into-sections.py:29 | the first newline at or after `k`, or the end: what `.+` can match up to |
| SplitSections.ClassDirOfClass | contrib/groups/split-into-sections.py:29-31 | `Class X`, alone or followed by further lines, uses the directory `lower(X)` |
| SplitSections.ClassDirAt | contrib/groups/split-into-sections.py:29-31 | a `Class ` name whose first line goes on past the prefix uses that rest of the line, lower-cased |
| SplitSections.LineEndAt | contrib/groups/split-into-sections.py:29 | a newline-free stretch ended by a newline or the end is where the line ends |
| SplitSections.ClassDirOther | contrib/groups/split-into-sections.py:29-31 | a name not starting with `Class ` is used unchanged |
| SplitSections.ClassDirSpec | contrib/groups/split-into-sections.py:29-31 | a renamed section starts with `Class ` and gets the non-empty, newline-free, lower-cased rest of its first line |
| SplitSections.LowerKeepsNewlines | contrib/groups/split-into-sections.py:31 | lower-casing changes no newline and makes none |
| SplitSections.LoginPrefixesSpec | contrib/groups/split-into-sections.py:36 | the prefixes exist exactly when every student has a string `login_id`, one per student, in order |
| SplitSections.LoginPrefixOfAddress | contrib/groups/split-into-sections.py:36 | for `user@domain` the split gives `user`, as does the short login of the group-creation script, so both scripts key students alike |
| SplitSections.PlacedSpec | contrib/groups/split-into-sections.py:37-46 | a group is placed in a section exactly when its first member is among the section's KU ids |
| SplitSections.PlacedLinksPrefixErr | contrib/groups/split-into-sections.py:37-46 | a refused link ends the section's loop with a failure |
| SplitSections.PlaceSection | contrib/groups/split-into-sections.py:37-46 | the inner loop changes the disk and the distributed numbers exactly as `PlacedLinks` says, and fails exactly when it does |
| SplitSections.PlacedLinksSpec | contrib/groups/split-into-sections.py:37-46 | the section's loop succeeds exactly when no placed group's entry exists yet; it appends the placed groups in order, links entry `iii` three levels up into group `i`'s folder, and changes no other link or file |
| SplitSections.SectionStepFails | contrib/groups/split-into-sections.py:26-36 | a round whose section lookup or KU-id extraction fails makes the round fail |
| SplitSections.SectionStepPlaced | contrib/groups/split-into-sections.py:25-46 | a round adds to the distributed numbers exactly the groups whose first member is among that section's KU ids |
| SplitSections.PlaceNamed | contrib/groups/split-into-sections.py:26-46 | one round succeeds exactly when `SectionStep` does, and then leaves the disk and distributed numbers it computes |
| SplitSections.SectionsPrefixErr | contrib/groups/split-into-sections.py:25-46 | a failing round fails the whole run |
| SplitSections.UnplacedSpec | contrib/groups/split-into-sections.py:48-50 | a group is reported exactly when it was not distributed, in ascending order |
| SplitSections.Create | contrib/groups/split-into-sections.py:15-52 | succeeds exactly when every round succeeds, leaving the disk `Sections` computes and reporting the groups it did not distribute |
| SplitSections.ReportUnplaced | contrib/groups/split-into-sections.py:48-50 | the final loop reports exactly `Unplaced` |
| SplitSections.SectionsUnfold | contrib/groups/split-into-sections.py:25-46 | a successful run over `t` names is a successful run over `t - 1` and one more round |
| SplitSections.SectionsFailAt | contrib/groups/split-into-sections.py:25-27 | the round of a name whose section cannot be found fails whatever came before |
| SplitSections.SectionsMissingFails | contrib/groups/split-into-sections.py:25-27 | a name whose section cannot be found makes every run that reaches it fail, so a successful run has found every section |
| SplitSections.SectionsSpec | contrib/groups/split-into-sections.py:25-46 | after `t` names, a group is distributed exactly when its first member is among the KU ids of one of those sections, so a group may be placed in several |
| SplitSections.ReportSpec | contrib/groups/split-into-sections.py:25-50 | a successful run has found every named section, and reports exactly the groups whose first member is in none of them |

## Left out

- Network transport: `urlopen`, `requests`, the `_call_api`/`_api` bodies, the upload helpers (`_upload_transit`, `_upload_via_url` and `staffeli/upload.py`), `give_feedback` and `get_verified_file`. These are I/O. Canvas responses are parameters, and the typed client's server is a map from URL to page.
- `urllib.parse.urlencode`, YAML and JSON loading and dumping, and `slugify` are library calls. The model stops at the pair list handed to `urlencode` and at `Json` values on the disk.
- `TypedCanvas.ListApi`: the page loop carries a fuel bound. After `fuel` pages it reports "page limit reached", where the source would go on following `next` links: a server whose link chain never closes is not modelled.
- `Common.Lower`: ASCII lowercasing stands in for Python's Unicode `str.lower()`.
- `Common.Upper`: ASCII uppercasing stands in for Python's Unicode `str.upper()`. That function also maps non-ASCII letters and can lengthen a text (`'ß'.upper() == 'SS'`).
- `Common.ParseInt`: `int()` is modelled as surrounding white space (the `str.isspace` set of `Common.IsSpace`), an optional sign and ASCII decimal digits. Python also accepts the other Unicode decimal digits and underscores between digits. Neither is accepted here.
- `Resubmissions.KeepAlnum`: only ASCII letters and digits are kept. Under `re.IGNORECASE`, Python's `[a-z]` also matches the few non-ASCII letters that case-fold into that range, such as KELVIN SIGN.
- `os.path.join` is modelled as always inserting `/`. The real function leaves it out after a trailing `/` and restarts at an absolute second part. Normalisation of `..` is not modelled either.
- `names.pp`: staffeli/names.py is not part of this model. The errors of `Listed` and `StaffeliCanvas` carry the candidate names as a list, where the source carries their pretty-printed text.
- The facades staffeli/course.py, staffeli/gcat.py, staffeli/group.py and staffeli/assignment.py: their logic is thin delegation to `ListedEntity` and `CachableEntity`, which are modelled. The network-backed `GroupList` member fetch and its `uidmap` are not modelled.
- Attachment downloads (`fetch_attachments`, `get_verified_file`), the submission copy helper and `get_subdirs`: these are file I/O with no decisions.
- `Resubmissions.DownloadResub`: it does not download the attachments, and a malformed attachment record is not modelled as a failure.
- `Cli.FetchSub`: it does not download the attachments. Only its skip rules, its `preview_url` failures and its folder are stated.
- `StaffeliCanvas.AllStudents`: `list.extend` takes a non-empty mapping's keys in insertion order, and `Json` objects have no key order. So a section whose `students` is a non-empty mapping is a failure of the model, in `StaffeliCanvas.SectionStudents`. Lists, texts (by their characters) and empty mappings are modelled.
- `Resubmissions.GraderNames`: a Python set has no fixed order, so which unknown grader is reported first is not fixed. The model states only that some unknown grader makes the call fail.
- `TypedCanvas.ParseLinkRoundTrip` requires a URL without `"` and a rel without `;`. That is narrower than "no `; rel=\"` inside". `TypedCanvas.ParseLinkSeparatorOverlap` shows that the wider condition does not give the round trip, because a rel ending in `; rel=` makes the separator reappear.
- `os.path.relpath` is modelled only for the one link shape it computes: three levels up, then the submission path.
- `Os.Disk.MakeDir`: it neither creates nor requires parent directories. So `os.mkdir`'s FileNotFoundError on a missing parent is not modelled: `mkdir`, `mknewdir` and `cache` at staffeli/cli.py:10, 18 and 22, and `_mkdir` at subsets/linalg17/staffeli.py:153. A new directory is not added to its parent's listing.
- `Os.Disk.EnsureDir`: as for `MakeDir`, the missing-parent failure of the final `os.mkdir` in `mkdirp` (src/resubmissions.py:45) is not modelled. `os.makedirs`'s creation of the missing parents is not modelled either: only the named directory is added.
- `Os.Disk.MakeDirIfAbsent`: as for `MakeDir`, the `os.mkdir` of staffeli/cli.py:10 never fails on a missing parent in the model.
- `Os.Exists`: symbolic links are never followed, here and in `Os.IsDir` and `Os.IsFile`. A broken link therefore exists in the model, where `os.path.exists` is false: a broken link at `fetch_sub`'s folder (staffeli/cli.py:9-11) makes `os.mkdir` raise FileExistsError, while the model leaves the disk alone and then records the cache file at the link's path. A link to a directory is not a directory in the model, where `os.path.isdir` and `os.makedirs(p, exist_ok=True)` follow it: `mkdirp` (src/resubmissions.py:40-45) and `Os.Ensured` refuse such a path where Python succeeds.
- `Os.Disk.WriteDoc`: writing onto a directory does not fail. `open(p, 'w')` raises IsADirectoryError there (staffeli/cachable.py:29-32); the model adds `p` to the files.
- `str()` of lists and mappings is not modelled. Strings, integers, booleans and `None` are rendered, and a path built from a list or a mapping is a failure.
- Key collisions between Python's `1` and `True`: `Json` object keys are strings, and the integer and boolean values `1` and `true` are distinct.
- `Feedback`: the undefined `exit_badpath` at src/feedback.py:47 is modelled as a NameError failure (see "## Findings"). The message printed before it (line 46) is not modelled. The intended `_exit_badpath` is modelled by its exit with status 1 alone, without its printed message.
- The first `download_resub` at src/resubmissions.py:35-38 is replaced by the second definition at import time, so only the second is modelled.
- The network parts of `dir_name`'s callers, `init_assignment` and `get_members`, `_check_filepaths`, and the `argparse` surface (`main_args_parser`, `grade_args_parser`, `main`) are left out: they are UI or network calls. Only the argument pairing of the two `main` functions is modelled.
- `Cachable.NewCachableEntity` with `walk = False`: the extra argument makes the lookup fail, and that is what the model states. The depth-bounded search the author meant is not modelled.
- `_pp_list` and the texts printed by the scripts. The reports are returned as sequences of lines or group indices.
- Glob metacharacters in the create-groups folder pattern, and hidden-name rules of directory listings: listings are given sequences and the pattern is an exact name.
- `get_set_id`'s `'name' in s` test: it is modelled as key membership in a record.
- The disk state left behind by an operation that fails half-way is stated only where a method's contract says so. Elsewhere only the error is stated.
- Python `assert` statements are modelled as failures. Running under `-O`, which strips them, is not modelled.
- Entities added or removed on the server between page requests: this is a concurrency concern.
- Token and rc-file discovery (`files.find_rc`, `~/.staffelirc`, `sys.argv` at import time), the tests under tests/, and the tooling scripts (`setup.py`, the static tests, `start_local_canvas.py`, `lib/speedgrader_url.py`): these are setup and I/O, not repository logic.

## Findings

| source | as written | input that shows it | evidently intended | confidence | as-written member | corrected member |
|---|---|---|---|---|---|---|
| staffeli/canvas.py:26-28 | keyword arguments are sent as `(value, key)` pairs | `_req('GET', url, name='x')` sends the pair `('x', 'name')` | the pair `('name', 'x')`, as the typed client sends | not executed; medium, since lib/canvas.py:19-25 swaps the same way | StaffeliCanvas.SwappedKeyword | StaffeliCanvas.IntendedKeywordQuerySpec |
| src/canvas.py:155-159 | the zero-match branch of `_lookup_name` uses the undefined names `attr` and `key` | any name against an empty entity list, and any name that no entity contains | fail with the list of every entity name, as staffeli/listed.py:29-33 does | not executed | SrcCanvas.NoEntitiesUndefinedName | Listed.NameLookupSpec |
| staffeli/files.py:39 | `_raise_lookup_error(namestr, parent)` passes two arguments to a three-parameter helper, and so does line 62 | a `_find_file` with at least one candidate where no level holds the file | raise the lookup error naming the file and the last directory probed | not executed | Files.FindFile | LibCanvas.FindFile |
| staffeli/submission.py:9 | `json.load` is called, but `json` is never imported | a submission folder holding `canvas_group.json` | return the ids listed in `canvas_group.json`, as src/feedback.py:31-37 does | not executed | Submission.GroupFileFails | Submission.IntendedStudentIdsSpec |
| subsets/linalg17/staffeli.py:214-216 | the submission folder uses the raw section name, while the section folders are made from the normalised name | a section `"a/b"` with student `abc123@ku.dk`, id 7: the folder is `A1/a/b/abc123_7`, while the section directory made is `A1/a_b` | put the submission under the normalised section folder | not executed | Linalg.SlashedSectionMissesDir | Linalg.IntendedFolderInSectionDir |
| src/feedback.py:47 | the no-match branch of `_find_student_id` calls `exit_badpath()`, which is not defined; the helper is `_exit_badpath` | a submission folder whose listing holds no name with three `_` | call `_exit_badpath()`, which prints its message and exits with status 1 | not executed | Feedback.StudentIdAgrees | Feedback.IntendedStudentIdSpec |
