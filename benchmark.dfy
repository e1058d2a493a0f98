/** The benchmark run: two configured scales, each generated once before the
    populate query and again before the aggregate query, and a verdict that
    compares the two measured durations.

    The queries themselves and the wall clock are outside the model: each
    measured duration is a parameter of the run.
 */
module Benchmark {
  import opened Dataset
  import opened Storage
  import opened Generator

  datatype Strategy = Populate | Aggregate

  function Other(s: Strategy): Strategy {
    if s == Populate then Aggregate else Populate
  }

  /** The measured duration of strategy `s`. */
  function Duration(s: Strategy, populateTime: real, aggregateTime: real): real {
    if s == Populate then populateTime else aggregateTime
  }

  /** The strategy reported as faster. "populate is faster" is reported only
      when its duration is strictly smaller; otherwise, ties included,
      "aggregate is faster" is reported. */
  function Verdict(populateTime: real, aggregateTime: real): (faster: Strategy)
    ensures faster == Populate ==> populateTime < aggregateTime
    ensures Duration(faster, populateTime, aggregateTime) <= Duration(Other(faster), populateTime, aggregateTime)
  {
    if populateTime < aggregateTime then Populate else Aggregate
  }

  /** The verdict names populate exactly when populate took strictly less time. */
  lemma VerdictPopulateIff(populateTime: real, aggregateTime: real)
    ensures Verdict(populateTime, aggregateTime) == Populate <==> populateTime < aggregateTime
  {
  }

  /** Equal durations are reported as "aggregate is faster". */
  lemma VerdictTieGoesToAggregate(t: real)
    ensures Verdict(t, t) == Aggregate
  {
  }

  // ---------------------------------------------------------------------------
  // The configured scales

  datatype Scale = Scale(numAuthors: nat, numBooks: nat)

  const SmallTestSize: nat := 10
  const LargeTestSize: nat := 500000

  /** `createTestData(smallTestSize / 2, smallTestSize)`: the halving is exact in
      JavaScript's floating-point division because the size is even. */
  const Small: Scale := Scale(SmallTestSize / 2, SmallTestSize)

  /** `createTestData(largeTestSize / 2, largeTestSize)`. */
  const Large: Scale := Scale(LargeTestSize / 2, LargeTestSize)

  /** The small scale: `smallTestSize / 2` authors and `smallTestSize` books. */
  lemma SmallScaleConfigured()
    ensures Small == Scale(5, 10)
  {
  }

  /** The large scale: `largeTestSize / 2` authors and `largeTestSize` books. */
  lemma LargeScaleConfigured()
    ensures Large == Scale(250000, 500000)
  {
  }

  /** The identities one generation at `scale` draws. */
  function IdsDrawn(scale: Scale): nat {
    scale.numAuthors + scale.numBooks
  }

  /** At both configured scales the generation completes, and each author is
      referred to by exactly two books. */
  lemma ScalesEachAuthorTwice(scale: Scale, firstId: ObjectId, firstBookId: ObjectId)
    requires scale == Small || scale == Large
    ensures Small == Scale(5, 10) && Large == Scale(250000, 500000)
    ensures Completes(scale.numAuthors, scale.numBooks)
    ensures var authors := NewAuthors(firstId, scale.numAuthors);
            forall j :: 0 <= j < scale.numAuthors ==>
              CountReferences(NewBooks(authors, firstBookId, scale.numBooks), authors[j].id) == 2
  {
    var authors := NewAuthors(firstId, scale.numAuthors);
    assert scale.numBooks == 2 * |authors|;
    EvenReferenceCount(authors, firstBookId, 2);
  }

  // ---------------------------------------------------------------------------
  // The run

  /** One scale of the run: regenerate, time `Book.find().populate("author")`,
      regenerate, time the `$lookup`/`$unwind` aggregation, compare. The two
      queries only read; `populateTime` and `aggregateTime` are what the clock
      measured around them. */
  method RunScale(db: Database, ids: ObjectIdGenerator, scale: Scale, populateTime: real, aggregateTime: real)
    returns (faster: Strategy)
    requires Completes(scale.numAuthors, scale.numBooks)
    modifies db, ids
    ensures faster == Verdict(populateTime, aggregateTime)
    ensures ids.next == old(ids.next) + 2 * IdsDrawn(scale)
    ensures db.authors == NewAuthors(old(ids.next) + IdsDrawn(scale), scale.numAuthors)
    ensures db.books == NewBooks(db.authors, old(ids.next) + IdsDrawn(scale) + scale.numAuthors, scale.numBooks)
    ensures db.log == AfterGeneration(AfterGeneration(old(db.log), scale.numAuthors, scale.numBooks),
                                      scale.numAuthors, scale.numBooks)
    ensures db.Consistent()
  {
    var outcome := CreateTestData(db, ids, scale.numAuthors, scale.numBooks);
    assert outcome.Pass?;
    assert ids.next == old(ids.next) + IdsDrawn(scale);
    outcome := CreateTestData(db, ids, scale.numAuthors, scale.numBooks);
    assert outcome.Pass?;
    faster := Verdict(populateTime, aggregateTime);
  }

  /** The four durations the clock measures in one run. */
  datatype Timings = Timings(populateSmall: real, aggregateSmall: real, populateLarge: real, aggregateLarge: real)

  /** `testPerformance()`: the small scale, then the large one. The database is
      left holding the last large dataset. */
  method TestPerformance(db: Database, ids: ObjectIdGenerator, measured: Timings)
    returns (small: Strategy, large: Strategy)
    modifies db, ids
    ensures small == Verdict(measured.populateSmall, measured.aggregateSmall)
    ensures large == Verdict(measured.populateLarge, measured.aggregateLarge)
    ensures db.authors == NewAuthors(old(ids.next) + 2 * IdsDrawn(Small) + IdsDrawn(Large), Large.numAuthors)
    ensures db.books == NewBooks(db.authors, old(ids.next) + 2 * IdsDrawn(Small) + IdsDrawn(Large) + Large.numAuthors,
                                 Large.numBooks)
    ensures var afterSmall := AfterGeneration(AfterGeneration(old(db.log), Small.numAuthors, Small.numBooks),
                                              Small.numAuthors, Small.numBooks);
            db.log == AfterGeneration(AfterGeneration(afterSmall, Large.numAuthors, Large.numBooks),
                                      Large.numAuthors, Large.numBooks)
    ensures db.Consistent()
  {
    small := RunScale(db, ids, Small, measured.populateSmall, measured.aggregateSmall);
    large := RunScale(db, ids, Large, measured.populateLarge, measured.aggregateLarge);
  }
}
