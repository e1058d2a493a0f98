# Populate vs. aggregate benchmark: dataset generator and verdict

This project models the deterministic part of a benchmark. The benchmark compares two ways of resolving the author of each book in MongoDB through mongoose:
`Book.find().populate("author")`, and a `$lookup` + `$unwind` aggregation.

The model has three parts:

- **The dataset generator `createTestData(numAuthors, numBooks)`.** It empties the `authors` and `books` collections. It builds `numAuthors` authors named `Author ${i}` and bulk-inserts them. Then it builds `numBooks` books titled `Book ${i}`. Book `i` refers to `authors[i % numAuthors]._id`, and the books are bulk-inserted after the authors.
- **The verdict.** It is reported from the two measured durations. "populate is faster" is reported only when the populate duration is strictly smaller. Otherwise, ties included, "aggregate is faster" is reported.
- **The run.** There are two configured scales: 5 authors with 10 books, and 250000 authors with 500000 books. At each scale the dataset is generated, the populate query is timed, the dataset is generated again, the aggregation is timed, and the verdict is reported.

Files and modules:

- `naming.dfy` (`Naming`): the decimal rendering of `${i}` and its inverse, plus the names and titles built from it.
- `dataset.dfy` (`Dataset`): the `Author` and `Book` records, and the functions that say what one generation builds (`NewAuthors`, `NewBooks`). It also holds the lemmas about a generation: distinct names and identities, referential integrity, round-robin counts, and regeneration.
- `storage.dfy` (`Storage`): the database as a class with two sequence fields. `deleteMany({})` empties a field and `insertMany` appends to it. A ghost log, a list of writes oldest first, records the order in which they were sent. This file also has the client-side ObjectId source as a class with a counter.
- `generator.dfy` (`Generator`): `createTestData` as a method. It has the two building loops with their invariants, and the error path for `numAuthors == 0 && numBooks > 0`.
- `benchmark.dfy` (`Benchmark`): the verdict, the scale constants and the run.

Modelling decisions:

- Identities are abstract natural numbers. Mongoose assigns an ObjectId on the client in each `new Author(...)` and `new Book(...)`. The model draws each identity from an `ObjectIdGenerator` whose counter only grows, so all identities are distinct. Nothing else about ObjectIds is modelled.
- Ties: the code sends equal durations to "aggregate is faster" (the `else` branch of a strict `<`). The model follows the code.
- With `numAuthors == 0` and `numBooks > 0`, `authors[0 % 0]` is `undefined`, and reading `_id` from it throws a TypeError in round 0. At that point both collections are empty and the empty author batch has been inserted. No book is inserted. `CreateTestData` returns `Fail(AuthorUndefined(0))` and leaves exactly that state.
- Halving the scale sizes is JavaScript floating-point division. It is exact for the even sizes 10 and 500000, so the model uses integer division.
- The durations that `performance.now()` measures are parameters of `Benchmark.RunScale` and `Benchmark.TestPerformance`, typed `real`.
- The source repeats one block of code per scale. The model writes that block once, as `Benchmark.RunScale`, and calls it for both scales. It requires `Completes(numAuthors, numBooks)`. Both configured scales meet this. For a scale with no authors and at least one book, the source would throw out of `testPerformance`.

## Model

| member | source | states |
|---|---|---|
| `Naming.Decimal` | index.js:25 | The rendering of `${i}` is a canonical numeral: non-empty, all digits, no leading zero. Its first digit is `0` exactly when `i == 0`, and it has one digit exactly when `i < 10`. |
| `Naming.ParseDecimalOfDecimal` | index.js:25 | Reading a rendered numeral back gives the number. |
| `Naming.DecimalOfParseDecimal` | index.js:25 | Rendering the value of any canonical numeral gives that numeral back (the other direction of the round trip). |
| `Naming.DecimalInjective` | index.js:25 | Different numbers render as different numerals. |
| `Naming.AuthorNameRoundTrip` | index.js:25 | An author name is `"Author "` followed by a numeral that reads back as the round number. |
| `Naming.BookTitleRoundTrip` | index.js:32 | A book title is `"Book "` followed by a numeral that reads back as the round number. |
| `Naming.AuthorNamesDistinct` | index.js:25 | `Author ${i}` equals `Author ${j}` exactly when `i == j`. |
| `Naming.BookTitlesDistinct` | index.js:32 | `Book ${i}` equals `Book ${j}` exactly when `i == j`. |
| `Dataset.NewAuthors` | index.js:23-26 | The first loop builds exactly `numAuthors` authors, and their identities are pairwise distinct. |
| `Dataset.NewBooks` | index.js:29-33 | The second loop builds exactly `numBooks` books. It needs at least one author when there is a book, because the lookup `authors[i % numAuthors]` needs one. |
| `Dataset.NewAuthorNamesDistinct` | index.js:24-25 | No two authors of a generation share a name. |
| `Dataset.NewBookTitlesDistinct` | index.js:30-32 | No two books of a generation share a title. |
| `Dataset.ReferencesPrecedeBooks` | index.js:24-32 | The authors draw their identities before the books, from the same source. So every author identity was drawn before every book identity, book identities are distinct, and each book's reference was drawn before the book's own identity. Here `<` on identities stands for "drawn earlier", because the model's counter acts as the clock; real ObjectIds promise no numeric order. |
| `Dataset.NewBooksResolve` | index.js:30-33 | Every generated book refers to one of the authors it was built from (referential integrity). |
| `Dataset.GenerationIntact` | index.js:23-34 | A generation leaves an intact dataset both when it stops after the authors and when it goes on to insert its books. |
| `Dataset.RoundRobin` | index.js:31 | Book `i` refers to author `j` exactly when `i % numAuthors == j`. |
| `Dataset.CountReferencesOfNewBooks` | index.js:30-33 | The number of books that refer to author `j` equals the number of indices below `numBooks` whose residue is `j`. |
| `Dataset.ReferenceCount` | index.js:30-33 | Author `j` is referred to by `numBooks / numAuthors` books, plus one when `j < numBooks % numAuthors`. |
| `Dataset.EvenReferenceCount` | index.js:31 | When `numBooks == k * numAuthors`, every author is referred to by exactly `k` books. |
| `Dataset.EveryAuthorReferenced` | index.js:31 | When `numBooks >= numAuthors`, every author is referred to by at least one book. |
| `Dataset.RegenerationAgrees` | index.js:19-35 | Two generations with the same counts agree up to identities: the same names, the same titles, and the same author behind every book's reference. |
| `Storage.Database.constructor` | index.js:16 | The database starts with whatever records it holds, and an empty write log. |
| `Storage.Database.DeleteAllAuthors` | index.js:20 | `Author.deleteMany({})` empties the authors and leaves the books alone. |
| `Storage.Database.DeleteAllBooks` | index.js:21 | `Book.deleteMany({})` empties the books and leaves the authors alone. |
| `Storage.Database.InsertAuthors` | index.js:27 | `Author.insertMany(batch)` appends the batch to the authors and leaves the books alone. |
| `Storage.Database.InsertBooks` | index.js:34 | `Book.insertMany(batch)` appends the batch to the books and leaves the authors alone. |
| `Storage.ObjectIdGenerator.NewId` | index.js:25 | Each new record receives the current counter value, and the counter moves past it. |
| `Generator.BuildAuthors` | index.js:23-26 | The author loop returns exactly `NewAuthors(first identity, numAuthors)` and draws `numAuthors` identities. |
| `Generator.BuildBooks` | index.js:29-33 | The outcome is `Pass` exactly when `Completes(numAuthors, numBooks)` for `numAuthors` authors, that is when there is an author or no book. Otherwise the book loop fails in round 0, before drawing an identity, because there are no authors and at least one book. On `Pass` it returns exactly `NewBooks(authors, first identity, numBooks)` and draws `numBooks` identities. |
| `Generator.ResetWithAuthors` | index.js:20-27 | The first half of a generation: both collections are emptied, then exactly the new authors are inserted, with the three writes logged in order and `numAuthors` identities drawn. |
| `Generator.CreateTestData` | index.js:19-35 | Afterwards the authors are exactly the new generation. Nothing from before survives. The books are the new generation, or none when the book loop threw. The writes are logged in order: delete authors, delete books, insert authors, then insert books only on success. The database is left referentially intact. |
| `Benchmark.Verdict` | index.js:79-83 | Populate is named only when its duration is strictly smaller. The named strategy is never slower than the other. |
| `Benchmark.VerdictPopulateIff` | index.js:79-83 | The verdict is populate if and only if `populateTime < aggregateTime`. |
| `Benchmark.VerdictTieGoesToAggregate` | index.js:122-126 | Equal durations are reported as "aggregate is faster". |
| `Benchmark.SmallScaleConfigured` | index.js:39-45 | The small scale is 5 authors and 10 books. |
| `Benchmark.LargeScaleConfigured` | index.js:88 | The large scale is 250000 authors and 500000 books. |
| `Benchmark.ScalesEachAuthorTwice` | index.js:39-88 | The small scale is 5 authors and 10 books, and the large one 250000 authors and 500000 books. Both complete, and each author is referred to by exactly two books. |
| `Benchmark.RunScale` | index.js:45-83 | One scale regenerates twice. It leaves the second generation in the database and reports the verdict on the two measured durations. |
| `Benchmark.TestPerformance` | index.js:38-129 | The small scale and then the large scale each run as above. The database is left holding the second large generation, with all writes in order. |

## Left out

- Connecting to and closing the database (index.js:16, index.js:128): network I/O. The database object starts with arbitrary contents.
- Running `Book.find().populate("author")` and the `$lookup`/`$unwind` aggregation: their join behaviour lives in mongoose and the MongoDB server. The model does not claim that the two give the same pairings.
- The wall clock (`performance.now()`): the measured durations are parameters.
- `console.log` progress output and the top-level `.catch`: logging only. No modelled call can throw during a run at the configured scales.
- Storage errors from `deleteMany` or `insertMany` (connection loss, write failure): every database write is assumed to succeed. The only failure modelled is the TypeError of the book loop.
- ObjectId internals (timestamp, random part, counter layout): identities are abstract, distinct numbers.
- Arguments of `createTestData` that are not non-negative integers (negative or fractional counts): both are `nat` in the model.
- Benchmark.RunScale: requires a scale whose generation completes, which both configured scales do. The source has no such parameterised step and would throw out of `testPerformance` on a failing scale.
