/** Reading a migration's checkpoint directory: the tip of one unbroken chain, or nothing at all. */
module CheckpointReader {
  import opened Wrappers
  import opened ProjectTypes
  import opened Migration
  import opened RevisionChain

  datatype Name = Name(revision: nat, digest: Digest)

  /** A directory entry: staging files and folders are passed over, everything else must be a checkpoint. */
  datatype Entry = PassedOver | Misnamed | Undecodable | File(name: Name, content: Checkpoint)

  datatype ReadError = Corrupt | Conflict

  type Ties = (Digest, Digest) -> bool

  const FIELDS: Fields<Checkpoint> := Fields(
    (c: Checkpoint) => c.body.revision, (c: Checkpoint) => c.digest,
    (c: Checkpoint) => c.body.previous, (c: Checkpoint) => c.body.migration_id)

  predicate EntryValid(h: Hashes, e: Entry) {
    match e
    case PassedOver => true
    case Misnamed => false
    case Undecodable => false
    case File(name, c) => Acceptable(h, c) && name == Name(c.body.revision, c.digest)
  }

  predicate AllValid(h: Hashes, listing: seq<Entry>) {
    forall i :: 0 <= i < |listing| ==> EntryValid(h, listing[i])
  }

  function ContentOf(e: Entry): Option<Checkpoint> {
    if e.File? then Some(e.content) else None
  }

  function Contents(listing: seq<Entry>): seq<Checkpoint> {
    Gather(ContentOf, listing)
  }

  /** The tip of the chain the files form, when they form one. */
  ghost predicate TipOf(id: string, files: seq<Checkpoint>, tip: Checkpoint) {
    exists chain :: chain != [] && ChainOf(FIELDS, id, chain, files) && tip == chain[|chain| - 1]
  }

  method Collect(h: Hashes, listing: seq<Entry>) returns (r: Result<seq<Checkpoint>, ReadError>)
    ensures r == if AllValid(h, listing) then Ok(Contents(listing)) else Err(Corrupt)
  {
    hide Acceptable;
    var checkpoints: seq<Checkpoint> := [];
    for i := 0 to |listing|
      invariant checkpoints == Contents(listing[..i])
      invariant AllValid(h, listing[..i])
    {
      assert listing[..i + 1][..i] == listing[..i];
      if !EntryValid(h, listing[i]) {
        return Err(Corrupt);
      }
      if listing[i].File? {
        checkpoints := checkpoints + [listing[i].content];
      }
    }
    assert listing[..|listing|] == listing;
    return Ok(checkpoints);
  }

  /** The first checkpoint that does not follow the one before it. */
  ghost predicate BreaksAt<T>(f: Fields<T>, id: string, sorted: seq<T>, k: nat) {
    k < |sorted| && Chain(f, id, sorted[..k]) && !LinkAt(f, id, sorted, k)
  }

  predicate Repeats<T>(f: Fields<T>, sorted: seq<T>, k: nat)
    requires k < |sorted|
  {
    k > 0 && f.revision(sorted[k]) == f.revision(sorted[k - 1])
  }

  /** Walks the sorted checkpoints, comparing each with the one before. */
  method Walk<T(==)>(f: Fields<T>, id: string, sorted: seq<T>) returns (r: Result<Option<T>, ReadError>)
    ensures r.Ok? <==> Chain(f, id, sorted)
    ensures r.Ok? ==> r.value == if sorted == [] then None else Some(sorted[|sorted| - 1])
    ensures r.Err? ==> exists k :: BreaksAt(f, id, sorted, k) && (r.error == Conflict <==> Repeats(f, sorted, k))
  {
    var previous: Option<T> := None;
    for i := 0 to |sorted|
      invariant Chain(f, id, sorted[..i])
      invariant previous == if i == 0 then None else Some(sorted[i - 1])
    {
      var c := sorted[i];
      assert i > 0 ==> LinkAt(f, id, sorted[..i], i - 1);
      if previous.Some? && f.revision(c) == f.revision(previous.value) {
        assert BreaksAt(f, id, sorted, i);
        return Err(Conflict);
      }
      var revision := if previous.None? then 1 else f.revision(previous.value) + 1;
      var digest := if previous.None? then None else Some(f.digest(previous.value));
      if f.revision(c) != revision || f.previous(c) != digest {
        assert BreaksAt(f, id, sorted, i);
        return Err(Corrupt);
      }
      if f.owner(c) != id {
        assert BreaksAt(f, id, sorted, i);
        return Err(Corrupt);
      }
      previous := Some(c);
      ChainGrows(f, id, sorted, i);
    }
    assert sorted[..|sorted|] == sorted;
    return Ok(previous);
  }

  lemma SortingFindsTheChain(id: string, files: seq<Checkpoint>, ties: Ties)
    ensures Chain(FIELDS, id, Sorted(FIELDS, ties, files)) <==> exists chain :: ChainOf(FIELDS, id, chain, files)
    ensures |Sorted(FIELDS, ties, files)| == |files|
    ensures Chain(FIELDS, id, Sorted(FIELDS, ties, files)) ==>
      forall tip :: TipOf(id, files, tip) <==> files != [] && tip == Sorted(FIELDS, ties, files)[|files| - 1]
  {
    hide Chain, Ascending, Sorted;
    var sorted := Sorted(FIELDS, ties, files);
    SortedSorts(FIELDS, ties, files);
    assert |sorted| == |multiset(sorted)| == |multiset(files)|;
    forall chain: seq<Checkpoint> | ChainOf(FIELDS, id, chain, files) ensures chain == sorted {
      SortedChain(FIELDS, id, sorted, chain);
    }
    if Chain(FIELDS, id, sorted) {
      assert ChainOf(FIELDS, id, sorted, files);
    }
  }

  /**
   Reads a directory in whatever order it is listed: it finds a tip exactly when every entry is sound and
   the checkpoints are one chain, and nothing exactly when there are none. A broken chain is a conflict if the
   first checkpoint that breaks it repeats a revision, and corrupt otherwise.
   */
  method Read(h: Hashes, id: string, listing: seq<Entry>, ties: Ties) returns (r: Result<Option<Checkpoint>, ReadError>)
    ensures r.Ok? <==> AllValid(h, listing) && exists chain :: ChainOf(FIELDS, id, chain, Contents(listing))
    ensures r.Ok? ==> (r.value.None? <==> Contents(listing) == [])
    ensures forall tip :: r == Ok(Some(tip)) <==> AllValid(h, listing) && TipOf(id, Contents(listing), tip)
    ensures !AllValid(h, listing) ==> r == Err(Corrupt)
    ensures r.Err? && AllValid(h, listing) ==>
      var sorted := Sorted(FIELDS, ties, Contents(listing));
      exists k :: BreaksAt(FIELDS, id, sorted, k) && (r.error == Conflict <==> Repeats(FIELDS, sorted, k))
  {
    hide Acceptable, Chain, EntryValid, Sorted;
    var collected := Collect(h, listing);
    if collected.Err? {
      return Err(collected.error);
    }
    var checkpoints := collected.value;
    SortingFindsTheChain(id, checkpoints, ties);
    if |checkpoints| == 0 {
      EmptyIsChain(id);
      return Ok(None);
    }
    r := Walk(FIELDS, id, Sorted(FIELDS, ties, checkpoints));
  }

  lemma EmptyIsChain(id: string)
    ensures ChainOf(FIELDS, id, [], [])
  {
  }

  /** The order of the listing decides nothing about success, nor about the tip. */
  lemma ListingOrderIsImmaterial(h: Hashes, id: string, listing: seq<Entry>, other: seq<Entry>)
    requires multiset(listing) == multiset(other)
    ensures AllValid(h, listing) <==> AllValid(h, other)
    ensures forall tip :: TipOf(id, Contents(listing), tip) <==> TipOf(id, Contents(other), tip)
  {
    hide Acceptable, EntryValid, Chain;
    GatherForgetsOrder(ContentOf, listing, other);
    if AllValid(h, listing) {
      ValidFollows(h, listing, other);
    }
    if AllValid(h, other) {
      ValidFollows(h, other, listing);
    }
  }

  lemma ValidFollows(h: Hashes, listing: seq<Entry>, other: seq<Entry>)
    requires multiset(listing) == multiset(other) && AllValid(h, listing)
    ensures AllValid(h, other)
  {
    hide Acceptable, EntryValid;
    forall i | 0 <= i < |other| ensures EntryValid(h, other[i]) {
      assert other[i] in multiset(listing);
    }
  }

  lemma {:induction false} FileIsListed(listing: seq<Entry>, e: Entry)
    requires e in listing && e.File?
    ensures e.content in Contents(listing)
  {
    if listing[|listing| - 1] != e {
      FileIsListed(listing[..|listing| - 1], e);
    }
  }

  /** Once two files of one revision with different contents are published, no later read ever succeeds. */
  lemma ForkIsForever(h: Hashes, id: string, c: Entry, d: Entry, later: seq<Entry>)
    requires c.File? && d.File? && c.content != d.content && c.content.body.revision == d.content.body.revision
    requires c in later && d in later
    ensures forall chain :: !ChainOf(FIELDS, id, chain, Contents(later))
  {
    FileIsListed(later, c);
    FileIsListed(later, d);
    ForkIsNoChain(FIELDS, id, Contents(later), c.content, d.content);
  }

  /** What an executor publishes next: the first checkpoint when it has found none, otherwise a step. */
  function Publishes(h: Hashes, a: Adapters, id: string, corpus: Corpus, now: Millis, tip: Option<Checkpoint>)
    : Result<Checkpoint, Failure>
    requires tip.Some? ==> Acceptable(h, tip.value)
  {
    match tip
    case None => Begin(h, id, corpus, now)
    case Some(c) => Step(h, a, now, c)
  }

  /**
   Two executors that have read the same tip, or both found an empty directory, publish the same file unless
   it carries a receipt made at two different times: then they have forked the journal. Only the checkpoints
   of single sources carry the receipt on unchanged.
   */
  lemma ConcurrentStepsAgreeExactly(
    h: Hashes, a: Adapters, id: string, corpus: Corpus, s: Millis, t: Millis, tip: Option<Checkpoint>)
    requires tip.Some? ==> Acceptable(h, tip.value)
    requires Publishes(h, a, id, corpus, s, tip).Ok? && Publishes(h, a, id, corpus, t, tip).Ok?
    ensures Publishes(h, a, id, corpus, s, tip) == Publishes(h, a, id, corpus, t, tip) <==>
      (tip.Some? && tip.value.body.next < |tip.value.body.corpus|) || s == t
    ensures Publishes(h, a, id, corpus, s, tip).value.body.revision ==
      Publishes(h, a, id, corpus, t, tip).value.body.revision
  {
    hide BodyAcceptable, MergeProjects, Aggregate, CanonicalProjects, Conserves;
    if tip.Some? {
      AcceptableShape(h, tip.value);
    }
  }
}
