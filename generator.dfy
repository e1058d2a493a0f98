/** `createTestData(numAuthors, numBooks)`: empties both collections, builds
    `numAuthors` authors and inserts them, then builds `numBooks` books that
    refer to the authors round-robin and inserts them.
 */
module Generator {
  import opened Naming
  import opened Dataset
  import opened Storage

  /** The TypeError raised when book `bookIndex` looks up `authors[i % 0]`,
      finds `undefined` and reads `_id` from it. */
  datatype GenerationError = AuthorUndefined(bookIndex: nat)

  datatype Outcome = Pass | Fail(error: GenerationError)

  /** Whether a generation of these counts gets as far as inserting its books. */
  predicate Completes(numAuthors: nat, numBooks: nat) {
    numAuthors > 0 || numBooks == 0
  }

  /** `log` followed by the writes a generation sends before it builds any
      book: both collections emptied, then the authors inserted. */
  function AfterAuthorPhase(log: WriteLog, numAuthors: nat): WriteLog {
    Then(Then(Then(log, DeleteMany(AuthorsCollection)), DeleteMany(BooksCollection)), InsertMany(AuthorsCollection, numAuthors))
  }

  /** `log` followed by the writes of one whole generation, in order. */
  function AfterGeneration(log: WriteLog, numAuthors: nat, numBooks: nat): WriteLog {
    if Completes(numAuthors, numBooks) then Then(AfterAuthorPhase(log, numAuthors), InsertMany(BooksCollection, numBooks))
    else AfterAuthorPhase(log, numAuthors)
  }

  /** The first loop: `authors.push(new Author({ name: `Author ${i}` }))` for each `i`. */
  method BuildAuthors(ids: ObjectIdGenerator, numAuthors: nat) returns (authors: seq<Author>)
    modifies ids
    ensures authors == NewAuthors(old(ids.next), numAuthors)
    ensures ids.next == old(ids.next) + numAuthors
  {
    authors := [];
    var i := 0;
    while i < numAuthors
      invariant i <= numAuthors
      invariant ids.next == old(ids.next) + i
      invariant |authors| == i
      invariant forall k :: 0 <= k < i ==> authors[k] == NewAuthors(old(ids.next), numAuthors)[k]
    {
      var id := ids.NewId();
      authors := authors + [Author(id, AuthorName(i))];
      i := i + 1;
    }
  }

  /** The second loop: book `i` takes `authors[i % numAuthors]._id` as its
      reference. With no authors the first round already fails. */
  method BuildBooks(ids: ObjectIdGenerator, authors: seq<Author>, numBooks: nat)
    returns (outcome: Outcome, books: seq<Book>)
    modifies ids
    ensures outcome == if Completes(|authors|, numBooks) then Pass else Fail(AuthorUndefined(0))
    ensures outcome.Pass? ==> books == NewBooks(authors, old(ids.next), numBooks)
    ensures ids.next == old(ids.next) + (if outcome.Pass? then numBooks else 0)
  {
    books := [];
    var i := 0;
    while i < numBooks
      invariant i <= numBooks
      invariant |authors| > 0 || i == 0
      invariant ids.next == old(ids.next) + i
      invariant |books| == i
      invariant forall k :: 0 <= k < i ==> books[k] == NewBooks(authors, old(ids.next), numBooks)[k]
    {
      if |authors| == 0 {
        outcome := Fail(AuthorUndefined(i));
        return;
      }
      var author := authors[i % |authors|];
      var id := ids.NewId();
      books := books + [Book(id, BookTitle(i), author.id)];
      i := i + 1;
    }
    outcome := Pass;
  }

  /** The first half of `createTestData`: both collections emptied, then the
      authors built and inserted. */
  method ResetWithAuthors(db: Database, ids: ObjectIdGenerator, numAuthors: nat)
    returns (authors: seq<Author>)
    modifies db, ids
    ensures authors == NewAuthors(old(ids.next), numAuthors)
    ensures db.authors == authors && db.books == []
    ensures ids.next == old(ids.next) + numAuthors
    ensures db.log == AfterAuthorPhase(old(db.log), numAuthors)
  {
    db.DeleteAllAuthors();
    db.DeleteAllBooks();
    authors := BuildAuthors(ids, numAuthors);
    db.InsertAuthors(authors);
    assert [] + authors == authors;
  }

  method CreateTestData(db: Database, ids: ObjectIdGenerator, numAuthors: nat, numBooks: nat)
    returns (outcome: Outcome)
    modifies db, ids
    ensures outcome == if Completes(numAuthors, numBooks) then Pass else Fail(AuthorUndefined(0))
    ensures db.authors == NewAuthors(old(ids.next), numAuthors)
    ensures outcome.Pass? ==> db.books == NewBooks(db.authors, old(ids.next) + numAuthors, numBooks)
    ensures outcome.Fail? ==> db.books == []
    ensures ids.next == old(ids.next) + numAuthors + (if outcome.Pass? then numBooks else 0)
    ensures db.log == AfterGeneration(old(db.log), numAuthors, numBooks)
    ensures db.Consistent()
  {
    ghost var firstId := ids.next;
    var authors := ResetWithAuthors(db, ids, numAuthors);
    var books;
    outcome, books := BuildBooks(ids, authors, numBooks);
    GenerationIntact(firstId, numAuthors, firstId + numAuthors, numBooks);
    if outcome.Fail? {
      return;
    }
    db.InsertBooks(books);
    assert [] + books == books;
  }
}
