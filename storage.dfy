/** The two collections of the test database and the client-side identity source.

    The `authors` and `books` collections are sequences of stored records:
    `deleteMany({})` empties one, `insertMany(batch)` appends a batch to it.
    A ghost log keeps the order in which these writes reached the database.
 */
module Storage {
  import opened Dataset

  datatype Collection = AuthorsCollection | BooksCollection

  /** One write sent to the database. */
  datatype Write = DeleteMany(collection: Collection) | InsertMany(collection: Collection, count: nat)

  /** The writes sent so far, oldest first: `Then(earlier, w)` is the log
      `earlier` followed by the write `w`. */
  datatype WriteLog = NoWrites | Then(earlier: WriteLog, latest: Write)

  class Database {
    var authors: seq<Author>
    var books: seq<Book>
    ghost var log: WriteLog

    /** Referential integrity: every stored book refers to a stored author,
        and no two stored authors share an identity. */
    predicate Consistent()
      reads this
    {
      Intact(authors, books)
    }

    /** Opens the database as it is found, possibly holding records left by an earlier run. */
    constructor (existingAuthors: seq<Author>, existingBooks: seq<Book>)
      ensures authors == existingAuthors && books == existingBooks && log == NoWrites
    {
      authors := existingAuthors;
      books := existingBooks;
      log := NoWrites;
    }

    /** `Author.deleteMany({})`. */
    method DeleteAllAuthors()
      modifies this
      ensures authors == [] && books == old(books)
      ensures log == Then(old(log), DeleteMany(AuthorsCollection))
    {
      authors := [];
      log := Then(log, DeleteMany(AuthorsCollection));
    }

    /** `Book.deleteMany({})`. */
    method DeleteAllBooks()
      modifies this
      ensures books == [] && authors == old(authors)
      ensures log == Then(old(log), DeleteMany(BooksCollection))
    {
      books := [];
      log := Then(log, DeleteMany(BooksCollection));
    }

    /** `Author.insertMany(batch)`. */
    method InsertAuthors(batch: seq<Author>)
      modifies this
      ensures authors == old(authors) + batch && books == old(books)
      ensures log == Then(old(log), InsertMany(AuthorsCollection, |batch|))
    {
      authors := authors + batch;
      log := Then(log, InsertMany(AuthorsCollection, |batch|));
    }

    /** `Book.insertMany(batch)`. */
    method InsertBooks(batch: seq<Book>)
      modifies this
      ensures books == old(books) + batch && authors == old(authors)
      ensures log == Then(old(log), InsertMany(BooksCollection, |batch|))
    {
      books := books + batch;
      log := Then(log, InsertMany(BooksCollection, |batch|));
    }
  }

  /** The ObjectId source every `new Author(...)` and `new Book(...)` draws from:
      each identity it hands out is larger than all earlier ones. */
  class ObjectIdGenerator {
    var next: ObjectId

    constructor (start: ObjectId)
      ensures next == start
    {
      next := start;
    }

    method NewId() returns (id: ObjectId)
      modifies this
      ensures id == old(next) && next == old(next) + 1
    {
      id := next;
      next := next + 1;
    }
  }
}
