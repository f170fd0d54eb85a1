/** The executor's loop over a checkpoint directory, stopped at any point and started again. */
module MigrationExecutor {
  import opened Wrappers
  import opened ProjectTypes
  import opened Migration
  import opened MigrationSafety
  import opened MigrationRuns
  import opened RevisionChain
  import opened CheckpointReader

  /** What is observed while writing each revision: the time, the corpus, and the corpus after an adapter's work. */
  datatype World = World(clock: nat -> Millis, observe: nat -> Corpus, recheck: nat -> Corpus)

  datatype Stop = Interrupted | Unreadable | Stopped(why: Failure)

  /** Nothing outside stands in the way of writing any revision. */
  ghost predicate Favourable(h: Hashes, a: Adapters, id: string, corpus: Corpus, w: World) {
    && ValidCorpus(corpus) && Completable(h, a, id, corpus)
    && (forall k: nat :: CanonicalTime(w.clock(k)))
    && (forall k: nat :: w.observe(k) == corpus && w.recheck(k) == corpus)
  }

  /** The next step has an adapter stage or verify one source, which ends with a second look at the corpus. */
  predicate AdapterWorks(b: Body) {
    (b.phase.Staging? || b.phase.Verifying?) && b.next < |b.corpus|
  }

  /** Writing the checkpoint of revision `k` on top of `tip` finds another corpus, before or after an adapter's work. */
  predicate Drifts(tip: Checkpoint, corpus: Corpus, w: World, k: nat) {
    !tip.body.phase.Complete? && (w.observe(k) != corpus || (AdapterWorks(tip.body) && w.recheck(k) != corpus))
  }

  /** Every checkpoint from index `from` on was written while the corpus was observed to be the admitted one. */
  ghost predicate Watched(files: seq<Checkpoint>, from: nat, corpus: Corpus, w: World) {
    && (forall k :: from < k <= |files| ==> w.observe(k) == corpus)
    && (forall k :: from < k <= |files| && k >= 2 && AdapterWorks(files[k - 2].body) ==> w.recheck(k) == corpus)
  }

  /** No step of its own accord says that the sources have changed. */
  lemma StepNeverDrifts(h: Hashes, a: Adapters, now: Millis, c: Checkpoint)
    requires Acceptable(h, c)
    ensures Step(h, a, now, c) != Err(SourceChanged)
  {
    hide BodyAcceptable;
  }

  /** The steps with a second look are exactly those in which an adapter that always throws is noticed. */
  lemma AdapterWorksExactly(h: Hashes, a: Adapters, b: Adapters, now: Millis, c: Checkpoint)
    requires Acceptable(h, c)
    ensures AdapterWorks(c.body) <==> Step(h, Adapters(_ => None, _ => None), now, c) == Err(AdapterFailed)
    ensures !AdapterWorks(c.body) ==> Step(h, a, now, c) == Step(h, b, now, c)
  {
    hide BodyAcceptable, SnapshotBody;
    AcceptableShape(h, c);
    SnapshotNeverFails(h, now, c);
  }

  lemma SnapshotNeverFails(h: Hashes, now: Millis, c: Checkpoint)
    requires c.body.next <= |c.body.corpus|
    ensures SnapshotBody(h, now, c) != Err(AdapterFailed)
  {
  }

  lemma BeginNeverDrifts(h: Hashes, id: string, corpus: Corpus, now: Millis)
    ensures Begin(h, id, corpus, now) != Err(SourceChanged)
  {
    hide BodyAcceptable;
  }

  function Listing(files: seq<Checkpoint>): seq<Entry> {
    seq(|files|, i requires 0 <= i < |files| => File(Name(files[i].body.revision, files[i].digest), files[i]))
  }

  lemma {:induction false} ContentsOfListing(files: seq<Checkpoint>)
    ensures Contents(Listing(files)) == files
  {
    if files != [] {
      var k := |files| - 1;
      assert Listing(files)[..k] == Listing(files[..k]);
      ContentsOfListing(files[..k]);
      assert files == files[..k] + [files[k]];
    }
  }

  /** A journal is its own chain: the reader finds its last checkpoint. */
  lemma JournalIsReadable(
    h: Hashes, a: Adapters, id: string, corpus: Corpus, files: seq<Checkpoint>, times: seq<Millis>)
    requires Written(h, a, id, corpus, files, times)
    ensures AllValid(h, Listing(files)) && ChainOf(FIELDS, id, files, Contents(Listing(files)))
    ensures files != [] ==> TipOf(id, Contents(Listing(files)), files[|files| - 1])
  {
    hide Acceptable, Step, Reachable, Bound;
    ContentsOfListing(files);
    forall i | 0 <= i < |files| ensures LinkAt(FIELDS, id, files, i) {
      JournalIsReachable(h, a, id, corpus, files, times, i);
    }
    assert ChainOf(FIELDS, id, files, files);
  }

  lemma TipIsUnique(id: string, files: seq<Checkpoint>, c: Checkpoint, d: Checkpoint)
    requires TipOf(id, files, c) && TipOf(id, files, d)
    ensures c == d
  {
    hide Chain;
    SortingFindsTheChain(id, files, (x, y) => false);
  }

  lemma WrittenOneMore(
    h: Hashes, a: Adapters, id: string, corpus: Corpus, files: seq<Checkpoint>, times: seq<Millis>, now: Millis)
    requires Written(h, a, id, corpus, files, times) && files != []
    requires Step(h, a, now, files[|files| - 1]).Ok?
    ensures Acceptable(h, Step(h, a, now, files[|files| - 1]).value)
    ensures Written(h, a, id, corpus, files + [Step(h, a, now, files[|files| - 1]).value], times + [now])
  {
    hide BodyAcceptable, Acceptable, Step, Begin;
    StepIsAcceptable(h, a, now, files[|files| - 1]);
  }

  lemma StepIsAcceptable(h: Hashes, a: Adapters, now: Millis, c: Checkpoint)
    requires Acceptable(h, c) && Step(h, a, now, c).Ok?
    ensures Acceptable(h, Step(h, a, now, c).value)
  {
    hide BodyAcceptable, SnapshotBody, StageBody, VerifyBody;
  }

  /** In a favourable world an unfinished journal always gets its next checkpoint. */
  lemma FavourableNeverStops(
    h: Hashes, a: Adapters, id: string, corpus: Corpus, files: seq<Checkpoint>, times: seq<Millis>, w: World)
    requires Written(h, a, id, corpus, files, times) && files != [] && Favourable(h, a, id, corpus, w)
    requires !files[|files| - 1].body.phase.Complete?
    ensures Step(h, a, w.clock(|files| + 1), files[|files| - 1]).Ok?
  {
    hide Completable, Bound, CanStep, Step;
    var tip := files[|files| - 1];
    JournalIsReachable(h, a, id, corpus, files, times, |files| - 1);
    CompletableCanStep(h, a, w.clock(|files| + 1), tip.body);
    StepExactly(h, a, w.clock(|files| + 1), tip);
  }

  lemma FavourableBegins(h: Hashes, id: string, corpus: Corpus, now: Millis)
    requires ValidCorpus(corpus) && CanonicalTime(now)
    ensures Begin(h, id, corpus, now).Ok?
  {
  }

  class ShadowMigration {
    const h: Hashes
    const a: Adapters
    const id: string
    var files: seq<Checkpoint>
    ghost var times: seq<Millis>

    ghost predicate Valid()
      reads this
    {
      exists corpus :: Written(h, a, id, corpus, files, times)
    }

    constructor (h: Hashes, a: Adapters, id: string)
      ensures this.h == h && this.a == a && this.id == id && files == [] && times == []
      ensures Valid()
    {
      this.h, this.a, this.id, this.files, this.times := h, a, id, [], [];
      new;
      assert Written(h, a, id, [], files, times);
    }

    method ReadTip(ghost corpus: Corpus) returns (r: Result<Option<Checkpoint>, ReadError>)
      requires Written(h, a, id, corpus, files, times)
      ensures r == if files == [] then Ok(None) else Ok(Some(files[|files| - 1]))
    {
      hide Written, AllValid, ChainOf, TipOf;
      JournalIsReadable(h, a, id, corpus, files, times);
      ContentsOfListing(files);
      r := Read(h, id, Listing(files), (x, y) => false);
      if r.Ok? && r.value.Some? {
        TipIsUnique(id, files, r.value.value, files[|files| - 1]);
      }
    }

    /** Carries an unfinished journal on until it is complete, something stops it, or `budget` writes have been made. */
    method Continue(corpus: Corpus, w: World, budget: nat) returns (r: Result<Checkpoint, Stop>)
      requires files != [] && Written(h, a, id, corpus, files, times)
      modifies this
      ensures files != [] && Written(h, a, id, corpus, files, times)
      ensures old(files) <= files
      ensures r.Ok? ==>
        r.value == files[|files| - 1] && r.value.body.phase.Complete? && |files| <= |old(files)| + budget
      ensures r == Err(Interrupted) ==> |files| == |old(files)| + budget && !files[|files| - 1].body.phase.Complete?
      ensures Favourable(h, a, id, corpus, w) ==> r.Ok? || r == Err(Interrupted)
      ensures Watched(files, |old(files)|, corpus, w)
      ensures r == Err(Stopped(SourceChanged)) <==> Drifts(files[|files| - 1], corpus, w, |files| + 1)
    {
      hide Written, Step, Acceptable, Favourable;
      var remaining := budget;
      JournalIsBounded(h, a, id, corpus, files, times);
      TipIsAcceptable(h, a, id, corpus, files, times);
      var checkpoint := files[|files| - 1];
      while !checkpoint.body.phase.Complete?
        invariant files != [] && Written(h, a, id, corpus, files, times)
        invariant checkpoint == files[|files| - 1] && Acceptable(h, checkpoint)
        invariant old(files) <= files && |files| == |old(files)| + budget - remaining
        invariant 0 <= remaining
        invariant Watched(files, |old(files)|, corpus, w)
        decreases remaining
      {
        var now := w.clock(|files| + 1);
        if w.observe(|files| + 1) != corpus {
          assert !Favourable(h, a, id, corpus, w) by { Observed(h, a, id, corpus, w, |files| + 1); }
          return Err(Stopped(SourceChanged));
        }
        if Favourable(h, a, id, corpus, w) {
          FavourableNeverStops(h, a, id, corpus, files, times, w);
        }
        var next := Step(h, a, now, checkpoint);
        if AdapterWorks(checkpoint.body) && w.recheck(|files| + 1) != corpus {
          assert !Favourable(h, a, id, corpus, w) by { Observed(h, a, id, corpus, w, |files| + 1); }
          return Err(Stopped(SourceChanged));
        }
        StepNeverDrifts(h, a, now, checkpoint);
        if next.Err? {
          return Err(Stopped(next.error));
        }
        if remaining == 0 {
          return Err(Interrupted);
        }
        WrittenOneMore(h, a, id, corpus, files, times, now);
        files, times, remaining := files + [next.value], times + [now], remaining - 1;
        checkpoint := next.value;
      }
      return Ok(checkpoint);
    }

    /**
     One run of the executor. A finished run stands at revision 3n + 4 and accounts for every record; an
     interrupted one has written exactly `budget` checkpoints; another corpus than the admitted one
     changes nothing; in a favourable world nothing but an interruption stops it; whatever was written,
     the corpus was still the admitted one; and changed sources are reported exactly when they are.
     */
    method Execute(offered: Corpus, w: World, budget: nat) returns (r: Result<Checkpoint, Stop>)
      requires Valid()
      modifies this
      ensures Valid() && old(files) <= files
      ensures r.Ok? ==> Concluded(offered, r.value)
      ensures r == Err(Interrupted) ==> |files| == |old(files)| + budget && |files| < 3 * |offered| + 4
      ensures old(files) != [] && old(files)[0].body.corpus != offered ==> r.Err? && files == old(files)
      ensures (old(files) == [] || old(files)[0].body.corpus == offered) && Favourable(h, a, id, offered, w) ==>
        r.Ok? || r == Err(Interrupted)
      ensures Watched(files, |old(files)|, offered, w)
      ensures r == Err(Stopped(SourceChanged)) <==>
        && ValidCorpus(offered)
        && if files == [] then w.observe(1) != offered
           else files[0].body.corpus != offered || Drifts(files[|files| - 1], offered, w, |files| + 1)
    {
      hide Written, Step, Begin, Acceptable, Favourable, AccountsForEveryRecord;
      ghost var corpus :| Written(h, a, id, corpus, files, times);
      if !ValidCorpus(offered) {
        FavourableNeeds(h, a, id, offered, w);
        return Err(Stopped(InvalidContract));
      }
      var tip := ReadTip(corpus);
      if tip.Err? {
        return Err(Unreadable);
      }
      var remaining := budget;
      if tip.value.None? {
        if w.observe(1) != offered {
          FavourableNeeds(h, a, id, offered, w);
          return Err(Stopped(SourceChanged));
        }
        BeginNeverDrifts(h, id, offered, w.clock(1));
        var first := Begin(h, id, offered, w.clock(1));
        if first.Err? {
          NotFavourableToBegin(h, a, id, offered, w);
          return Err(Stopped(first.error));
        }
        if remaining == 0 {
          return Err(Interrupted);
        }
        FirstIsWritten(h, a, id, offered, w.clock(1));
        files, times, remaining := [first.value], [w.clock(1)], remaining - 1;
      } else {
        AdmittedCorpus(h, a, id, corpus, files, times);
        if tip.value.value.body.corpus != offered {
          return Err(Stopped(SourceChanged));
        }
      }
      r := Continue(offered, w, remaining);
      AdmittedCorpus(h, a, id, offered, files, times);
      JournalIsBounded(h, a, id, offered, files, times);
      if r.Ok? {
        FinishedWasCompletable(h, a, id, offered, files, times);
      }
    }

    predicate Concluded(offered: Corpus, c: Checkpoint)
      reads this
    {
      && files != [] && c == files[|files| - 1] && c.body.corpus == offered
      && |files| == 3 * |offered| + 4 && AccountsForEveryRecord(c.body)
    }

    lemma TipIsAcceptable(
      h: Hashes, a: Adapters, id: string, corpus: Corpus, files: seq<Checkpoint>, times: seq<Millis>)
      requires Written(h, a, id, corpus, files, times) && files != []
      ensures Acceptable(h, files[|files| - 1])
    {
      hide Acceptable;
    }

    lemma FavourableNeeds(h: Hashes, a: Adapters, id: string, corpus: Corpus, w: World)
      ensures Favourable(h, a, id, corpus, w) ==> ValidCorpus(corpus) && w.observe(1) == corpus
    {
    }

    lemma NotFavourableToBegin(h: Hashes, a: Adapters, id: string, corpus: Corpus, w: World)
      requires Begin(h, id, corpus, w.clock(1)).Err?
      ensures !Favourable(h, a, id, corpus, w)
    {
      hide Completable;
      if ValidCorpus(corpus) && CanonicalTime(w.clock(1)) {
        FavourableBegins(h, id, corpus, w.clock(1));
      }
    }

    lemma FirstIsWritten(h: Hashes, a: Adapters, id: string, corpus: Corpus, now: Millis)
      requires Begin(h, id, corpus, now).Ok?
      ensures Written(h, a, id, corpus, [Begin(h, id, corpus, now).value], [now])
    {
      hide BodyAcceptable;
      BeginIsReachable(h, a, id, corpus, now);
    }

    lemma AdmittedCorpus(h: Hashes, a: Adapters, id: string, corpus: Corpus, files: seq<Checkpoint>, times: seq<Millis>)
      requires Written(h, a, id, corpus, files, times) && files != []
      ensures files[0].body.corpus == corpus && files[|files| - 1].body.corpus == corpus
    {
      JournalIsReachable(h, a, id, corpus, files, times, 0);
      JournalIsReachable(h, a, id, corpus, files, times, |files| - 1);
    }

    lemma Observed(h: Hashes, a: Adapters, id: string, corpus: Corpus, w: World, k: nat)
      requires w.observe(k) != corpus || w.recheck(k) != corpus
      ensures !Favourable(h, a, id, corpus, w)
    {
    }
  }
}
