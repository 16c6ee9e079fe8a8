# Letter counts of a category crawl, and the `strict` decorator

This project models two independent parts of one Python repository in Dafny
and proves properties of the model.

The first part is the crawler of `task2/solution.py`. It walks the paginated
listing of the category "Животные по алфавиту" on ru.wikipedia.org. On every
page it counts the entry titles by upper-cased first character, in a global
dictionary `beasts`. It follows the "Следующая страница" link until there is
none, then writes the counts as CSV rows sorted by letter.

- `Crawl.Crawler` is a class that owns the tally (`counts`, the model of
  `beasts`) and Python's one-character `str.upper` (`upper`).
- `ParseBeastLinks` is the counting loop. `CrawlFrom` is the `while url` loop of `main`, which
  runs for at most `fuel` iterations.
- Both methods are proved against pure specifications. `Aggregator.Record`
  specifies one page. `Crawl.Step` and `Crawl.Run` specify the loop.
- `PageParser.FindNextLink` is the next-link search.
- `ResultSink.Rows` gives the rows that `save_results_to_file` writes.

The second part is the `strict` decorator of `task1/solution.py`.
`Strict.Wrapper` is one call of the decorated function:

1. It reads the function's annotations as they are at the moment of the call.
2. It checks the bound arguments in signature order and skips `*args` and
   `**kwargs`.
3. It raises `TypeError` for the first argument that fails `isinstance`,
   without calling the function.
4. Otherwise it calls the function and checks the result against the return
   annotation.

`isinstance` respects `bool` being a subclass of `int`.

Three behaviours of the code that the model keeps as they are:

- The header row `Буква, Количество` is written only when the file did not
  exist before the run. The file is overwritten either way.
- A failed or empty fetch does not end the crawl. The same URL is requested
  again, with no retry limit.
- Keys are strings, not single characters, because `str.upper` can return
  several characters.

Files:

- `wrappers.dfy`: `Option` and `Result`.
- `string_order.dfy`: Python's order on `str`.
- `aggregator.dfy`: the tally.
- `page_parser.dfy`: the next-link finder.
- `crawler.dfy`: the class, the loop and the run lemmas.
- `result_sink.dfy`: the output rows.
- `strict.dfy`: the decorator.

## Model

| member | source | states |
|---|---|---|
| `StringOrder.Less` | task2/solution.py:88 | defines the `<` that `sorted` applies to `str` keys: code-point order, a proper prefix first; its properties are in `LessIrreflexive`, `LessTransitive` and `LessTotal` |
| `StringOrder.LessIrreflexive` | task2/solution.py:88 | no string sorts before itself, so strictly ascending keys are distinct |
| `StringOrder.LessTransitive` | task2/solution.py:88 | the code-point order that `sorted` uses on `str` keys is transitive |
| `StringOrder.LessTotal` | task2/solution.py:88 | of any two different strings, one sorts before the other |
| `Aggregator.Bump` | task2/solution.py:67-70 | an empty title leaves the tally as it is; any other title adds its key and raises that key's count by 1 (a missing key counts as 0), and every other count stays |
| `Aggregator.Record` | task2/solution.py:66-70 | defines the tally after the loop over one page's titles, in document order; its properties are in `RecordCounts`, `RecordKeys`, `RecordMonotone`, `RecordUntouched`, `RecordTotal`, `RecordAppend` and `RecordCommutes` |
| `Aggregator.RecordCounts` | task2/solution.py:66-70 | after a page, each key's count is its old count plus the number of non-empty titles whose upper-cased first character is that key |
| `Aggregator.RecordKeys` | task2/solution.py:66-70 | after a page, the keys are the old keys plus the first letters of the page's non-empty titles, so no key is ever removed |
| `Aggregator.RecordMonotone` | task2/solution.py:15 | no key disappears and no count decreases when a page is recorded |
| `Aggregator.RecordUntouched` | task2/solution.py:66-70 | a key that is no title's first letter keeps its presence and its count |
| `Aggregator.RecordTotal` | task2/solution.py:66-70 | the sum of all counts rises by exactly the number of non-empty titles |
| `Aggregator.RecordAppend` | task2/solution.py:66-70 | recording two title lists one after the other equals recording their concatenation |
| `Aggregator.RecordCommutes` | task2/solution.py:66-70 | the tally after two pages does not depend on the order of the pages |
| `PageParser.IsNextLink` | task2/solution.py:45-49 | defines the predicate handed to `soup.find`: tag `a`, exact title, exact stripped label; its use is stated by `FirstNextLink` and `FindNextLink` |
| `PageParser.FirstNextLink` | task2/solution.py:44-50 | returns no index iff no element is an `a` with the exact category title and the exact "Следующая страница" label; otherwise the first such index in document order |
| `PageParser.FindNextLink` | task2/solution.py:44-54 | returns None iff no element matches; otherwise `str(href)` of the first match in document order |
| `PageParser.FirstIsUnique` | task2/solution.py:44-50 | any matching index with no earlier match is the one that `find` returns |
| `PageParser.MissingHrefGivesNoneString` | task2/solution.py:51-53 | a first match without `href` yields the four-character string "None", not absence |
| `PageParser.FindNextLinkIgnoresTail` | task2/solution.py:44-50 | elements after the first match do not change the result |
| `Crawl.Truthy` | task2/solution.py:106 | defines the truthiness test of `while url`, `if html_responce` and `if next_page`: present and non-empty; used by `Advance`, `Step` and `Run` |
| `Crawl.Advance` | task2/solution.py:115 | the new cursor is None exactly when the next link is absent or empty; otherwise it is a non-empty URL equal to `base_url + next` |
| `Crawl.Step` | task2/solution.py:106-115 | one iteration requests the cursor URL once; a None or empty body leaves the cursor and the tally unchanged, so the same URL comes next; a page records its titles and moves the cursor by `Advance` |
| `Crawl.Run` | task2/solution.py:106-119 | defines at most `fuel` iterations of `while url`, stopping once the cursor is falsy; its properties are in `FailingUrlRetriedForever`, `SelfLinkLoopsForever`, `RunStopsOnlyAtNone`, `RunMonotone` and `ChainIsFollowed` |
| `Crawl.Crawler.constructor` | task2/solution.py:15 | the tally starts empty |
| `Crawl.Crawler.ParseBeastLinks` | task2/solution.py:57-70 | the new tally is `Record` of the old tally and the page's titles, in document order |
| `Crawl.Crawler.CrawlFrom` | task2/solution.py:97-119 | the final cursor, the tally and the list of requested URLs are those of `Run` from the start URL and the old tally |
| `Crawl.FailingUrlRetriedForever` | task2/solution.py:106-115 | if every request of a URL fails, any number of iterations leaves the cursor on it and the tally unchanged, having requested it that many times |
| `Crawl.SelfLinkLoopsForever` | task2/solution.py:106-115 | if every request of a URL succeeds and its page's next link leads back to it, any number of iterations leaves the cursor on it, having requested it that many times: the loop never ends |
| `Crawl.RunStopsOnlyAtNone` | task2/solution.py:106-115 | the cursor stays None or a non-empty URL; a run ends early only with cursor None, and otherwise makes one request per iteration |
| `Crawl.RunMonotone` | task2/solution.py:106-115 | over any run no key disappears and no count decreases |
| `Crawl.RecordPagesAll` | task2/solution.py:109-112 | counting the pages one by one equals counting all their titles at once |
| `Crawl.ChainHead` | task2/solution.py:108-115 | the first iteration over a chain requests its first URL, counts its first page and moves to the second URL, or to None on the last page |
| `Crawl.ChainIsFollowed` | task2/solution.py:105-115 | with no failed fetch and K chained pages, the last without a next link, a run of at least K iterations requests exactly the K URLs in chain order, counts all K pages and stops with cursor None |
| `Crawl.MissingHrefFollowed` | task2/solution.py:114-115 | a page whose first next-page anchor lacks `href` sends the crawl to `base_url + "None"` |
| `Crawl.TwoPageExample` | task2/solution.py:66-70 | pages "Ant", "Aardvark", "Bee" then "Bat" give the tally {A: 2, B: 2} |
| `ResultSink.Insert` | task2/solution.py:88 | inserting a new key into strictly ascending keys keeps them strictly ascending and adds exactly that key |
| `ResultSink.SortedKeys` | task2/solution.py:88 | the keys of the tally, each once, in strictly ascending order |
| `ResultSink.CountRows` | task2/solution.py:88-89 | one `[key, count]` row per key, in the given key order |
| `ResultSink.Rows` | task2/solution.py:81-89 | one row per key, plus one more when the file did not exist; the header comes first exactly when the file did not exist |
| `ResultSink.RowAt` | task2/solution.py:88-89 | the i-th row after the header is the row of the i-th smallest key, with its count |
| `ResultSink.RowsContent` | task2/solution.py:88-89 | after the header, every row is `[key, count]` for a key of the tally, and every key has such a row |
| `ResultSink.RowsAscending` | task2/solution.py:88-89 | after the header, keys are strictly ascending, so each key appears exactly once |
| `ResultSink.RowsRoundTrip` | task2/solution.py:83-89 | reading the written rows back gives exactly the tally that was saved, with or without the header |
| `ResultSink.TwoKeyExample` | task2/solution.py:85-89 | the tally {A: 2, B: 2} saved to a new file gives the header, then A,2, then B,2 |
| `Strict.IsInstance` | task1/solution.py:39 | defines `isinstance` on the modelled classes through the value's class and `issubclass`; its property is in `IsInstanceExactly` |
| `Strict.IsInstanceExactly` | task1/solution.py:39 | `isinstance` accepts a value's own class, and also `int` for a `bool`, and nothing else |
| `Strict.FirstRejected` | task1/solution.py:32-43 | returns no position iff no non-variadic annotated argument fails `isinstance`; otherwise the first failing position in signature order |
| `Strict.CheckArguments` | task1/solution.py:32-43 | no error iff no non-variadic annotated argument fails `isinstance`; otherwise the error names the first failing argument in signature order, with its annotation and its runtime type |
| `Strict.Wrapper` | task1/solution.py:28-54 | the function runs iff every argument passes; a successful call returns exactly the function's result, and only when that result passes the return annotation |
| `Strict.RejectedArgumentStopsCall` | task1/solution.py:32-45 | if some argument fails, the function is not called and the error is for the first failing argument |
| `Strict.UncheckedArgumentIgnored` | task1/solution.py:34-38 | the value bound to an unannotated parameter or to `*args`/`**kwargs` never changes the outcome of the check |
| `Strict.UncheckedPositionIgnored` | task1/solution.py:32-38 | the position of the first failing argument does not depend on the value of an unannotated or variadic argument |
| `Strict.NothingToCheck` | task1/solution.py:34-38 | with no annotated non-variadic parameter, the function is always called |
| `Strict.AcceptedCallIsTransparent` | task1/solution.py:45-54 | when all arguments pass and the result is accepted, the wrapper returns exactly the function's result |
| `Strict.RejectedResultRaisesAfterCall` | task1/solution.py:45-52 | a result that fails the return annotation raises `TypeError` after the function has run |
| `Strict.GoodValue` | tests/test_task1.py:7-12 | each test value is an instance of its type |
| `Strict.WrongValue` | tests/test_task1.py:14-19 | each wrong test value is not an instance of its type |
| `Strict.LateArgumentAnnotationEnforced` | tests/test_task1.py:46-62 | an argument annotation added after decoration is enforced: the same call passes before it is added and raises without calling the function after |
| `Strict.LateReturnAnnotationEnforced` | tests/test_task1.py:127-142 | a return annotation added after decoration accepts the right value and rejects the wrong one after the call |
| `Strict.AnnotatedPairPasses` | tests/test_task1.py:64-88 | arguments of their annotated types pass and the returned pair is unchanged |
| `Strict.UnannotatedPairPasses` | tests/test_task1.py:106-125 | without annotations any two values pass through unchanged |
| `Strict.SumTwoBody` | task1/solution.py:69 | defines `a + b` on `int`/`bool` operands (a `bool` adds as 0 or 1); its use is stated by `SumTwo` |
| `Strict.SumTwo` | task1/solution.py:59-69 | two `int` (or `bool`) arguments return their sum; a non-`int` `a` raises for `a`, otherwise a non-`int` `b` raises for `b`, and neither error calls the body |
| `Strict.SumTwoExamples` | task1/solution.py:72-77 | `sum_two(1, 2)` returns 3 and `sum_two(1, 2.4)` raises `TypeError` for `b` |

## Left out

- `fetch` (task2/solution.py:18-34) is not modelled: the aiohttp request, `raise_for_status`, the random User-Agent and the error print. Each request is a parameter `fetch(url, n)`: the body returned by the n-th request of the run, or None for a failure.
- HTML parsing is not modelled: BeautifulSoup, lxml, the CSS selector at task2/solution.py:64 and `get_text(strip=True)`. A body becomes a `Page` through a parameter `parse`. The page holds the titles as the selector and `strip` give them, and the elements with their text already stripped.
- Python's Unicode `str.upper` table is not modelled. It is the `upper` parameter of the crawler.
- The random delay and its print after every iteration (task2/solution.py:117-119) are not modelled. Floating-point randomness and timing do not affect the cursor or the counts.
- The per-iteration `aiohttp.ClientSession` is not modelled.
- File I/O in `save_results_to_file` (task2/solution.py:80-94) is not modelled: `os.path.isfile` (a boolean parameter here), opening, CSV quoting, encoding and the exception print.
- The `__main__` block of task2/solution.py (lines 122-126) is not modelled beyond the constant `StartUrl`.
- Crawl.Crawler.CrawlFrom: runs at most `fuel` iterations, while the source loop is unbounded. Non-termination on a failing URL (`FailingUrlRetriedForever`) or on a page whose next link leads back to itself (`SelfLinkLoopsForever`) shows in the lemmas as "still running after any fuel". Longer rings of pages are not covered by a lemma.
- `inspect.signature`, `sig.bind` and `apply_defaults` are not modelled, nor the `TypeError` that binding raises for wrong arity. A call is given as its bound arguments. Positional and keyword calls that bind the same arguments are therefore the same call.
- `functools.wraps` and `typing.no_type_check` (task1/solution.py:18, 60) only copy or mark metadata. Their one effect that matters, the shared `__annotations__` dictionary, is modelled by reading the annotations at every call.
- Annotations are limited to seven runtime classes: bool, int, float, str, NoneType, tuple and dict. Generic or user-defined annotations are not modelled, and neither are error message texts beyond the parameter name, the expected class and the received class.
- Strict.SumTwo: the body `a + b` is modelled only for `int` and `bool` operands, because the decorator lets no others through. Other operands give `NoneVal`.
- Strict.Wrapper: the wrapped function is a total function of its bound arguments. An exception raised by `func(*args, **kwargs)` (task1/solution.py:45) passes through the wrapper before the return check; the model has no such outcome.
- Strict.Wrapper: every annotation is one of the seven modelled classes. An annotation that is neither a class nor a union of classes (`None`, a string annotation, `list[int]`) makes `isinstance` itself raise `TypeError` at task1/solution.py:39 or :48. In particular `inspect.signature` keeps `-> None` as `None`, not `NoneType`, so a decorated function annotated `-> None` raises `TypeError` after it has run. The model's `NoneType` is the class `type(None)` and does not stand for the annotation `-> None`. Union annotations such as `int | None`, which `isinstance` accepts, are not modelled either.
- Python `float` is modelled as `real`.
