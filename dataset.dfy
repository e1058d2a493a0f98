/** The two record kinds of the benchmark and the dataset one generation builds.

    An author has an identity and a name; a book has an identity, a title and
    a reference to the identity of one author. Identities are abstract values:
    mongoose draws a fresh ObjectId on the client for each `new Author(...)`
    and `new Book(...)`, and all the model needs of them is that they are
    distinct, so they are natural numbers handed out in increasing order
    (see Storage.ObjectIdGenerator).
 */
module Dataset {
  import opened Naming

  type ObjectId = nat

  datatype Author = Author(id: ObjectId, name: string)

  datatype Book = Book(id: ObjectId, title: string, author: ObjectId)

  predicate IdsDistinct(authors: seq<Author>) {
    forall i, j :: 0 <= i < j < |authors| ==> authors[i].id != authors[j].id
  }

  function AuthorIds(authors: seq<Author>): set<ObjectId> {
    set a | a in authors :: a.id
  }

  /** Every book refers to an author of the collection. */
  predicate ReferencesResolve(authors: seq<Author>, books: seq<Book>) {
    forall i :: 0 <= i < |books| ==> books[i].author in AuthorIds(authors)
  }

  /** Referential integrity of a dataset: authors have distinct identities
      and every book refers to one of them. */
  predicate Intact(authors: seq<Author>, books: seq<Book>) {
    IdsDistinct(authors) && ReferencesResolve(authors, books)
  }

  /** The authors built by the first loop of one generation: author `i`
      takes the `i`-th identity drawn from `firstId` on and the name `Author ${i}`. */
  function NewAuthors(firstId: ObjectId, numAuthors: nat): (authors: seq<Author>)
    ensures |authors| == numAuthors
    ensures IdsDistinct(authors)
  {
    seq(numAuthors, i requires 0 <= i < numAuthors => Author(firstId + i, AuthorName(i)))
  }

  /** The books built by the second loop: book `i` takes the `i`-th identity
      drawn from `firstId` on, the title `Book ${i}` and a reference to
      `authors[i % |authors|]`. There is no such author when `authors` is empty. */
  function NewBooks(authors: seq<Author>, firstId: ObjectId, numBooks: nat): (books: seq<Book>)
    requires numBooks > 0 ==> |authors| > 0
    ensures |books| == numBooks
  {
    seq(numBooks, i requires 0 <= i < numBooks => Book(firstId + i, BookTitle(i), authors[i % |authors|].id))
  }

  /** The number of books that refer to `id`. */
  function CountReferences(books: seq<Book>, id: ObjectId): nat {
    if books == [] then 0
    else CountReferences(books[..|books| - 1], id) + (if books[|books| - 1].author == id then 1 else 0)
  }

  /** The number of `i < m` with `i % n == j`. */
  function CountResidues(m: nat, n: nat, j: nat): nat
    requires n > 0
  {
    if m == 0 then 0 else CountResidues(m - 1, n, j) + (if (m - 1) % n == j then 1 else 0)
  }

  // ---------------------------------------------------------------------------
  // Names, titles and identities

  /** No two generated authors share a name. */
  lemma NewAuthorNamesDistinct(firstId: ObjectId, numAuthors: nat)
    ensures forall i, j :: 0 <= i < j < numAuthors ==>
      NewAuthors(firstId, numAuthors)[i].name != NewAuthors(firstId, numAuthors)[j].name
  {
    forall i, j | 0 <= i < j < numAuthors
      ensures NewAuthors(firstId, numAuthors)[i].name != NewAuthors(firstId, numAuthors)[j].name
    {
      AuthorNamesDistinct(i, j);
    }
  }

  /** No two generated books share a title. */
  lemma NewBookTitlesDistinct(authors: seq<Author>, firstId: ObjectId, numBooks: nat)
    requires numBooks > 0 ==> |authors| > 0
    ensures forall i, j :: 0 <= i < j < numBooks ==>
      NewBooks(authors, firstId, numBooks)[i].title != NewBooks(authors, firstId, numBooks)[j].title
  {
    forall i, j | 0 <= i < j < numBooks
      ensures NewBooks(authors, firstId, numBooks)[i].title != NewBooks(authors, firstId, numBooks)[j].title
    {
      BookTitlesDistinct(i, j);
    }
  }

  /** When the books draw their identities after the authors, from the same
      generator, every identity of the generation is distinct and each book's
      reference was drawn before the book's own identity: a book can only
      refer to an author that already existed when the book was built. Here
      `<` on identities stands for "drawn earlier": the model's counter acts
      as the clock. Real ObjectIds promise no numeric order, since their
      3-byte counter wraps. */
  lemma ReferencesPrecedeBooks(firstId: ObjectId, numAuthors: nat, numBooks: nat)
    requires numBooks > 0 ==> numAuthors > 0
    ensures var authors := NewAuthors(firstId, numAuthors);
            var books := NewBooks(authors, firstId + numAuthors, numBooks);
            (forall i, j :: 0 <= i < numAuthors && 0 <= j < numBooks ==> authors[i].id < books[j].id) &&
            (forall i, j :: 0 <= i < j < numBooks ==> books[i].id != books[j].id) &&
            (forall j :: 0 <= j < numBooks ==> books[j].author < books[j].id)
  {
  }

  // ---------------------------------------------------------------------------
  // Referential integrity and round-robin assignment

  /** Every generated book refers to one of the authors it was built from. */
  lemma NewBooksResolve(authors: seq<Author>, firstId: ObjectId, numBooks: nat)
    requires numBooks > 0 ==> |authors| > 0
    ensures ReferencesResolve(authors, NewBooks(authors, firstId, numBooks))
  {
    var books := NewBooks(authors, firstId, numBooks);
    forall i | 0 <= i < numBooks ensures books[i].author in AuthorIds(authors) {
      var a := authors[i % |authors|];
      assert a in authors;
    }
  }

  /** A generation leaves an intact dataset, whether it stops after the
      authors or goes on to insert its books. */
  lemma GenerationIntact(firstId: ObjectId, numAuthors: nat, firstBookId: ObjectId, numBooks: nat)
    ensures Intact(NewAuthors(firstId, numAuthors), [])
    ensures (numBooks > 0 ==> numAuthors > 0) ==>
      Intact(NewAuthors(firstId, numAuthors), NewBooks(NewAuthors(firstId, numAuthors), firstBookId, numBooks))
  {
    if numBooks > 0 ==> numAuthors > 0 {
      NewBooksResolve(NewAuthors(firstId, numAuthors), firstBookId, numBooks);
    }
  }

  /** Book `i` refers to author `j` exactly when `i % |authors| == j`. */
  lemma RoundRobin(authors: seq<Author>, firstId: ObjectId, numBooks: nat, i: nat, j: nat)
    requires |authors| > 0 && IdsDistinct(authors)
    requires i < numBooks && j < |authors|
    ensures NewBooks(authors, firstId, numBooks)[i].author == authors[j].id <==> i % |authors| == j
  {
    var k := i % |authors|;
    if k < j {
      assert authors[k].id != authors[j].id;
    } else if j < k {
      assert authors[j].id != authors[k].id;
    }
  }

  lemma {:induction false} MulAtLeast(d: nat, n: nat)
    requires d >= 1
    ensures d * n >= n
  {
    if d > 1 {
      MulAtLeast(d - 1, n);
      assert d * n == (d - 1) * n + n;
    }
  }

  /** Euclidean division is determined by its defining equation. */
  lemma UniqueDivMod(a: nat, n: nat, q: nat, r: nat)
    requires 0 <= r < n && a == q * n + r
    ensures a / n == q && a % n == r
  {
    var q', r' := a / n, a % n;
    assert a == q' * n + r';
    if q < q' {
      MulAtLeast(q' - q, n);
    } else if q' < q {
      MulAtLeast(q - q', n);
    }
  }

  lemma QuotientPositive(a: nat, n: nat)
    requires 0 < n <= a
    ensures a / n >= 1
  {
  }

  /** How division by `n` moves on from `k` to `k + 1`. */
  lemma DivModStep(k: nat, n: nat)
    requires n > 0
    ensures k % n + 1 < n ==> (k + 1) / n == k / n && (k + 1) % n == k % n + 1
    ensures k % n + 1 == n ==> (k + 1) / n == k / n + 1 && (k + 1) % n == 0
  {
    var q, r := k / n, k % n;
    if r + 1 < n {
      UniqueDivMod(k + 1, n, q, r + 1);
    } else {
      assert k + 1 == (q + 1) * n;
      UniqueDivMod(k + 1, n, q + 1, 0);
    }
  }

  /** Among `0 .. m - 1`, residue `j` modulo `n` occurs `m / n` times, once more
      when `j` is below `m % n`. */
  lemma {:induction false} CountResiduesFormula(m: nat, n: nat, j: nat)
    requires j < n
    ensures CountResidues(m, n, j) == m / n + (if j < m % n then 1 else 0)
  {
    if m > 0 {
      CountResiduesFormula(m - 1, n, j);
      DivModStep(m - 1, n);
      var q, r := (m - 1) / n, (m - 1) % n;
      assert CountResidues(m, n, j) == q + (if j < r then 1 else 0) + (if r == j then 1 else 0);
      if r + 1 < n {
        assert m / n == q && m % n == r + 1;
      } else {
        assert m / n == q + 1 && m % n == 0;
      }
    }
  }

  /** Counting references to author `j` is counting the indices with residue `j`. */
  lemma {:induction false} CountReferencesOfNewBooks(authors: seq<Author>, firstId: ObjectId, m: nat, j: nat)
    requires |authors| > 0 && IdsDistinct(authors) && j < |authors|
    ensures CountReferences(NewBooks(authors, firstId, m), authors[j].id) == CountResidues(m, |authors|, j)
  {
    if m > 0 {
      var books := NewBooks(authors, firstId, m);
      assert books[..m - 1] == NewBooks(authors, firstId, m - 1);
      CountReferencesOfNewBooks(authors, firstId, m - 1, j);
      RoundRobin(authors, firstId, m, m - 1, j);
    }
  }

  /** Round-robin assignment spreads the books evenly: author `j` is referred to
      by `numBooks / |authors|` books, one more when `j < numBooks % |authors|`. */
  lemma ReferenceCount(authors: seq<Author>, firstId: ObjectId, numBooks: nat, j: nat)
    requires |authors| > 0 && IdsDistinct(authors) && j < |authors|
    ensures CountReferences(NewBooks(authors, firstId, numBooks), authors[j].id)
         == numBooks / |authors| + (if j < numBooks % |authors| then 1 else 0)
  {
    CountReferencesOfNewBooks(authors, firstId, numBooks, j);
    CountResiduesFormula(numBooks, |authors|, j);
  }

  /** With `k` books per author, every author is referred to by exactly `k` books. */
  lemma EvenReferenceCount(authors: seq<Author>, firstId: ObjectId, k: nat)
    requires |authors| > 0 && IdsDistinct(authors)
    ensures forall j :: 0 <= j < |authors| ==>
      CountReferences(NewBooks(authors, firstId, k * |authors|), authors[j].id) == k
  {
    var n := |authors|;
    UniqueDivMod(k * n, n, k, 0);
    forall j | 0 <= j < n
      ensures CountReferences(NewBooks(authors, firstId, k * n), authors[j].id) == k
    {
      ReferenceCount(authors, firstId, k * n, j);
    }
  }

  /** With at least as many books as authors, no author is left without a book. */
  lemma EveryAuthorReferenced(authors: seq<Author>, firstId: ObjectId, numBooks: nat)
    requires |authors| > 0 && IdsDistinct(authors) && numBooks >= |authors|
    ensures forall j :: 0 <= j < |authors| ==>
      CountReferences(NewBooks(authors, firstId, numBooks), authors[j].id) >= 1
  {
    forall j | 0 <= j < |authors|
      ensures CountReferences(NewBooks(authors, firstId, numBooks), authors[j].id) >= 1
    {
      ReferenceCount(authors, firstId, numBooks, j);
      QuotientPositive(numBooks, |authors|);
    }
  }

  // ---------------------------------------------------------------------------
  // Regeneration

  /** Two generations with the same counts build the same dataset up to the
      identities: the same names, the same titles and the same author behind
      each book's reference. */
  lemma RegenerationAgrees(first1: ObjectId, first2: ObjectId, books1: ObjectId, books2: ObjectId,
                           numAuthors: nat, numBooks: nat)
    requires numBooks > 0 ==> numAuthors > 0
    ensures var a1, a2 := NewAuthors(first1, numAuthors), NewAuthors(first2, numAuthors);
            var b1, b2 := NewBooks(a1, books1, numBooks), NewBooks(a2, books2, numBooks);
            (forall i :: 0 <= i < numAuthors ==> a1[i].name == a2[i].name) &&
            (forall i :: 0 <= i < numBooks ==> b1[i].title == b2[i].title) &&
            (forall i, j :: 0 <= i < numBooks && 0 <= j < numAuthors ==>
               (b1[i].author == a1[j].id <==> b2[i].author == a2[j].id))
  {
    var a1, a2 := NewAuthors(first1, numAuthors), NewAuthors(first2, numAuthors);
    forall i, j | 0 <= i < numBooks && 0 <= j < numAuthors
      ensures NewBooks(a1, books1, numBooks)[i].author == a1[j].id
          <==> NewBooks(a2, books2, numBooks)[i].author == a2[j].id
    {
      RoundRobin(a1, books1, numBooks, i, j);
      RoundRobin(a2, books2, numBooks, i, j);
    }
  }
}
