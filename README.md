# ainfo core in Dafny

A Dafny model of three sequential pieces of the `ainfo` contact-information
pipeline, with proofs of what they promise:

- **Text chunking** (`src/ainfo/chunking.py`, module `Chunking`):
  `chunk_text` splits a string into consecutive slices of at most `size`
  characters, and `stream_chunks` yields the same slices from a generator.
  `ChunkText` is a function over the `range(0, len(text), size)` comprehension.
  `StreamChunks` is a method whose loop is the generator's loop, with the
  yielded slices collected into a list.
- **Text gathering and the extraction record** (`src/ainfo/extraction/__init__.py`,
  module `Extraction`): `_gather_text` walks a forest of `PageNode`s
  (`text`, `children`). Each non-empty text and each recursively gathered child
  list becomes a part, and the parts are joined with one space.
  `GatherText` is that loop-plus-recursion as a method, proved equal to the
  function `Gathered`. `ExtractInformation` builds the three-key dictionary
  from the contact extractors, which are passed in as functions.
- **Fetcher decision logic** (`src/ainfo/fetcher.py`, module `Fetcher`):
  class `AsyncFetcher` holds the per-origin robots memo (`robots`), the cache
  directory (`cache`, file name to contents) and a ghost log of every GET
  (`requests`). Its methods `Allowed` and `Fetch` are proved to agree with the
  pure functions `AllowedStep` and `FetchStep` over a `State` value. The
  lemmas about those functions state the order of the decision: robots gate,
  then cache hit, then GET and cache write. They also state the memo and the
  "robots.txt failure means empty rules" rule.

Abstractions in the fetcher:
- The network is an oracle `string -> Response`, given to each call, so
  successive calls may see different answers.
- Robots parsing plus `can_fetch` is one function `canFetch(robotsText, userAgent, url)`.
- The origin (`scheme://netloc`) and the SHA-256 file name of a URL are functions
  fixed at construction (`origin`, `cacheKey`).
- `mkdir` does nothing in the model.
- The files already in the cache directory are a constructor argument.
- A cache file is written as the response text and read back in text mode,
  where every `"\r\n"` and lone `"\r"` becomes `"\n"` (`ReadText`). So a
  body served from the cache equals the fetched body only when it has no
  carriage return (`CrlfBodyChangesOnSecondFetch`).

Behaviour of the code that is easy to misread:
- `_gather_text` reads every node. It has no "content node" filter, and it does not
  collapse or trim whitespace. A non-empty child list whose gathered text is
  `""` still adds an empty part, which gives two spaces in a row
  (`DoubledSpaceExample`).
- The extraction record has three keys (`emails`, `phone_numbers`,
  `addresses`). It has no `social_media` key.
- `stream_chunks` and `chunk_text` are not equivalent for every size.
  For size 0, `range` raises `ValueError` when the generator is first advanced.
  For a negative size the range is empty, so the generator yields nothing,
  while `chunk_text` raises `ValueError`. They agree on every positive size.

## Model

| member | source | states |
|---|---|---|
| `Chunking.ChunkText` | src/ainfo/chunking.py:10-14 | Fails with `ValueError` exactly when `size <= 0`; otherwise succeeds. |
| `Chunking.RangeLengthIsCeiling` | src/ainfo/chunking.py:14 | The number of offsets in `range(0, n, size)` is the ceiling of `n / size`, and zero exactly for the empty text. |
| `Chunking.ChunkTextShape` | src/ainfo/chunking.py:11-14 | There are ceil(len/size) chunks (none for the empty text). Every chunk is non-empty and at most `size` long, and every chunk but the last is exactly `size` long. |
| `Chunking.ChunkAt` | src/ainfo/chunking.py:14 | Chunk `k` starts inside the text and is `text[k*size : min((k+1)*size, len(text))]`. |
| `Chunking.ChunksAdjacent` | src/ainfo/chunking.py:14 | Every chunk but the last is the full `size` slice at `k*size`, and the next chunk starts at `k*size + size`, where it ends: the chunks are in order and do not overlap. |
| `Chunking.ConcatPrefix` | src/ainfo/chunking.py:14 | The first `k` chunks concatenate to the first `min(k*size, len)` characters of the text. |
| `Chunking.ChunkTextRoundTrip` | src/ainfo/chunking.py:14 | For a positive size, `"".join(chunk_text(text, size)) == text`. |
| `Chunking.StreamChunks` | src/ainfo/chunking.py:17-20 | The drained generator yields exactly `chunk_text`'s list for a positive size. It raises `ValueError` for size 0 and yields nothing for a negative size. |
| `Chunking.ChunkExamples` | tests/test_chunking.py:4-11 | `"abcdefg"` gives `["abc","def","g"]` with size 3 and `["ab","cd","ef","g"]` with size 2. |
| `Extraction.GatherText` | src/ainfo/extraction/__init__.py:15-24 | The loop and recursion of `_gather_text` return `Gathered(nodes)`, the single-space join of the parts list. |
| `Extraction.GatheredEmpty` | src/ainfo/extraction/__init__.py:18-24 | An empty node sequence gathers to `""`. |
| `Extraction.JoinAppend` | src/ainfo/extraction/__init__.py:24 | `" ".join(a + b)` puts exactly one separator between the joins of `a` and `b` when both are non-empty, and none otherwise. |
| `Extraction.PartsAppend` | src/ainfo/extraction/__init__.py:19-23 | Siblings keep their order: the parts of `a + b` are the parts of `a` followed by the parts of `b`. |
| `Extraction.NodePartsTokens` | src/ainfo/extraction/__init__.py:20-23 | One node's parts and its flat pre-order tokens join to the same string, and are empty together. |
| `Extraction.GatheredIsJoinOfTokens` | src/ainfo/extraction/__init__.py:15-24 | The nested joins equal one single-space join of the pre-order tokens. A node's non-empty text comes before its descendants. A non-empty child list that gathers to `""` contributes one empty token. |
| `Extraction.TokensArePreorder` | src/ainfo/extraction/__init__.py:19-23 | When every node has text, the tokens are exactly all texts in document pre-order. |
| `Extraction.GatheredPreorder` | src/ainfo/extraction/__init__.py:15-24 | When every node has text, the result is the pre-order sequence of all texts joined with single spaces. |
| `Extraction.GatheredFlat` | src/ainfo/extraction/__init__.py:19-24 | When no node has children, the result is the space-join of the non-empty texts, and only those. |
| `Extraction.EmptyTextNodeTransparent` | src/ainfo/extraction/__init__.py:20-23 | A node with empty text adds no part of its own. When its children gather to something non-empty, they read as if they stood in its place. |
| `Extraction.DoubledSpaceExample` | src/ainfo/extraction/__init__.py:22-24 | A child list that gathers to `""` still adds an empty part, giving two spaces in a row. |
| `Extraction.ExtractInformation` | src/ainfo/extraction/__init__.py:27-35 | The result has exactly the keys `emails`, `phone_numbers`, `addresses`. Each value is its extractor applied to the document's one gathered text, so equal documents give equal records. |
| `Fetcher.AllowedKeepsRobotsConsistent` | src/ainfo/fetcher.py:53-68 | `_allowed` keeps the invariant that the memo holds exactly the origins whose robots.txt was requested, each requested once. |
| `Fetcher.FetchKeepsRobotsConsistent` | src/ainfo/fetcher.py:70-104 | `fetch` keeps that invariant, so robots rules are fetched at most once per origin for a fetcher's lifetime. |
| `Fetcher.AllowedMemoises` | src/ainfo/fetcher.py:56-67 | A memoised origin costs no request and changes nothing. A new origin costs exactly one robots.txt GET and adds one entry. Existing entries are never replaced, and the cache is untouched. |
| `Fetcher.RobotsFailureMeansEmptyRules` | src/ainfo/fetcher.py:60-67 | A transport failure or non-200 robots.txt reply is not raised. It is memoised as empty text, and the verdict is the parser's verdict on empty rules. |
| `Fetcher.RobotsFailureIsPermissive` | src/ainfo/fetcher.py:60-68 | If empty rules allow all, a failed robots.txt GET never leads to `PermissionError`, for this URL or any later URL of the same origin. |
| `Fetcher.RobotsDenialIsAbsolute` | src/ainfo/fetcher.py:83-85 | A disallowed URL raises `PermissionError`. The cache is neither read into the result nor written, and no page GET is issued, even when a cache entry exists. |
| `Fetcher.ReadTextHasNoCR` | src/ainfo/fetcher.py:93-94 | A cache file read in text mode yields no carriage return. |
| `Fetcher.ReadTextKeepsTextWithoutCR` | src/ainfo/fetcher.py:93-94 | Text without a carriage return reads back from a cache file unchanged. |
| `Fetcher.ReadTextIdempotent` | src/ainfo/fetcher.py:93-94 | Reading back text that was already read back in text mode changes nothing. |
| `Fetcher.ReadTextCrlfExample` | src/ainfo/fetcher.py:93-94 | `"a\r\nb"` reads back as `"a\nb"`. |
| `Fetcher.CacheHitIssuesNoPageRequest` | src/ainfo/fetcher.py:88-94 | An allowed URL with a cache entry returns the stored contents read in text mode (newlines translated) and issues no page GET. With a memoised origin it issues no request at all. |
| `Fetcher.CacheMissIssuesGet` | src/ainfo/fetcher.py:96-104 | On a miss, exactly one page GET is issued. A 2xx body is returned and, with a cache, stored under the URL's key. Any other status or a transport failure is raised and nothing is written. |
| `Fetcher.NoCacheDirMeansEveryAllowedCallGets` | src/ainfo/fetcher.py:37-104 | Without a cache directory the cache is never touched and every allowed call issues a page GET. |
| `Fetcher.SecondFetchServedFromCache` | src/ainfo/fetcher.py:88-104 | After a successful fetch with a cache, a second fetch of the same URL returns the first body read back in text mode, whatever the network answers, and changes no state (no request). A body without a carriage return comes back identical. |
| `Fetcher.CrlfBodyChangesOnSecondFetch` | src/ainfo/fetcher.py:93-102 | A `"a\r\nb"` reply is returned as is by the fetch that writes the cache and as `"a\nb"` by the next fetch. |
| `Fetcher.AsyncFetcher.constructor` | src/ainfo/fetcher.py:29-41 | An empty or absent `cache_dir` means no cache. The robots memo starts empty and nothing has been requested. |
| `Fetcher.AsyncFetcher.Allowed` | src/ainfo/fetcher.py:53-68 | The memo, the log and the verdict after the call are those of `AllowedStep`, and the robots invariant is kept. |
| `Fetcher.AsyncFetcher.Fetch` | src/ainfo/fetcher.py:70-104 | The result, memo, cache and log after the call are those of `FetchStep` (a cache hit returns the contents read in text mode), and the robots invariant is kept. |

## Left out

- Concurrency and async suspension: every call is taken as one sequential step.
  The HTTP timeout is recorded but has no effect.
- `Chunking.StreamChunks` collects what the generator yields. Laziness is not modelled, which matters only for when the size-0 `ValueError` is raised.
- `urllib.robotparser` semantics, SHA-256, URL parsing, `httpx` and `aiofiles` are foreign code. They are abstract functions and the network oracle, not specified here.
  That empty robots rules allow everything is a property of the parser, so
  `RobotsFailureIsPermissive` takes it as a hypothesis.
- Extraction.GatherText: has no recursion limit. Python raises `RecursionError` for a document nested deeper than the interpreter's recursion limit (1000 frames by default), and so does `extract_information`; the model always returns `Gathered(nodes)`.
- Character encoding of cache files is not modelled: the text written is taken to decode back to the same characters, apart from the newline translation of `ReadText`.
- `AsyncFetcher.close`, `__aenter__` and `__aexit__`: they only close the HTTP client.
- Exceptions other than `httpx.HTTPError` while reading robots.txt, and file-system errors on the cache directory, are not modelled.
- The contact extractors (`ainfo.extractors.contact`), custom extraction and the crawler are not part of this model. The extractors are passed in as functions.
- `src/ainfo/llm_service.py`, `src/ainfo/__init__.py`, `src/ainfo/output/__init__.py`,
  `src/ainfo/fetching/__init__.py`, `src/ainfo/parsing/__init__.py` and
  `integration/api.py` are not modelled. They are an HTTP client wrapper, command-line
  wiring, printing and serialisation, an `asyncio.run` wrapper, a one-line dictionary
  wrapper, and a web endpoint that runs a subprocess.
