/** Records that carry a revision and the digest of the record before: sorting them, and when they form one chain. */
module RevisionChain {
  import opened Wrappers
  import opened ProjectTypes

  datatype Fields<!T> = Fields(revision: T -> nat, digest: T -> Digest, previous: T -> Option<Digest>,
    owner: T -> string)

  function Predecessor<T>(f: Fields<T>, s: seq<T>, i: nat): Option<Digest>
    requires i <= |s|
  {
    if i == 0 then None else Some(f.digest(s[i - 1]))
  }

  predicate LinkAt<T>(f: Fields<T>, id: string, s: seq<T>, i: nat)
    requires i < |s|
  {
    f.revision(s[i]) == i + 1 && f.owner(s[i]) == id && f.previous(s[i]) == Predecessor(f, s, i)
  }

  /** Revisions 1, 2, 3 and so on, each naming the digest before it. */
  predicate Chain<T>(f: Fields<T>, id: string, s: seq<T>) {
    forall i :: 0 <= i < |s| ==> LinkAt(f, id, s, i)
  }

  ghost predicate ChainOf<T>(f: Fields<T>, id: string, chain: seq<T>, files: seq<T>) {
    Chain(f, id, chain) && multiset(chain) == multiset(files)
  }

  /** How equal revisions are ordered is left open: it never decides whether reading succeeds. */
  predicate Precedes<T>(f: Fields<T>, ties: (Digest, Digest) -> bool, c: T, d: T) {
    f.revision(c) < f.revision(d) || (f.revision(c) == f.revision(d) && ties(f.digest(c), f.digest(d)))
  }

  function Insert<T>(f: Fields<T>, ties: (Digest, Digest) -> bool, s: seq<T>, c: T): seq<T> {
    if s == [] || !Precedes(f, ties, c, s[|s| - 1]) then s + [c]
    else Insert(f, ties, s[..|s| - 1], c) + [s[|s| - 1]]
  }

  function Sorted<T>(f: Fields<T>, ties: (Digest, Digest) -> bool, s: seq<T>): seq<T> {
    if s == [] then [] else Insert(f, ties, Sorted(f, ties, s[..|s| - 1]), s[|s| - 1])
  }

  predicate Ascending<T>(f: Fields<T>, s: seq<T>) {
    forall i, j :: 0 <= i < j < |s| ==> f.revision(s[i]) <= f.revision(s[j])
  }

  lemma SplitLast<T>(s: seq<T>)
    requires s != []
    ensures multiset(s) == multiset(s[..|s| - 1]) + multiset{s[|s| - 1]}
  {
    assert s == s[..|s| - 1] + [s[|s| - 1]];
  }

  lemma {:induction false} InsertKeeps<T>(f: Fields<T>, ties: (Digest, Digest) -> bool, s: seq<T>, c: T)
    ensures multiset(Insert(f, ties, s, c)) == multiset(s) + multiset{c}
  {
    if s != [] && Precedes(f, ties, c, s[|s| - 1]) {
      InsertKeeps(f, ties, s[..|s| - 1], c);
      SplitLast(s);
    }
  }

  lemma AppendAscends<T>(f: Fields<T>, s: seq<T>, last: T)
    requires Ascending(f, s) && forall d :: d in multiset(s) ==> f.revision(d) <= f.revision(last)
    ensures Ascending(f, s + [last])
  {
  }

  lemma {:induction false} InsertAscends<T>(f: Fields<T>, ties: (Digest, Digest) -> bool, s: seq<T>, c: T)
    requires Ascending(f, s)
    ensures Ascending(f, Insert(f, ties, s, c))
  {
    if s != [] {
      var front, last := s[..|s| - 1], s[|s| - 1];
      if Precedes(f, ties, c, last) {
        InsertAscends(f, ties, front, c);
        InsertKeeps(f, ties, front, c);
        AppendAscends(f, Insert(f, ties, front, c), last);
      }
    }
  }

  lemma {:induction false} SortedSorts<T>(f: Fields<T>, ties: (Digest, Digest) -> bool, s: seq<T>)
    ensures Ascending(f, Sorted(f, ties, s)) && multiset(Sorted(f, ties, s)) == multiset(s)
  {
    if s != [] {
      SortedSorts(f, ties, s[..|s| - 1]);
      InsertKeeps(f, ties, Sorted(f, ties, s[..|s| - 1]), s[|s| - 1]);
      InsertAscends(f, ties, Sorted(f, ties, s[..|s| - 1]), s[|s| - 1]);
      SplitLast(s);
    }
  }

  lemma ChainPrefix<T>(f: Fields<T>, id: string, s: seq<T>, k: nat)
    requires Chain(f, id, s) && k <= |s|
    ensures Chain(f, id, s[..k])
  {
    forall i | 0 <= i < k ensures LinkAt(f, id, s[..k], i) {
      assert LinkAt(f, id, s, i);
    }
  }

  lemma ChainGrows<T>(f: Fields<T>, id: string, s: seq<T>, i: nat)
    requires i < |s| && Chain(f, id, s[..i]) && LinkAt(f, id, s, i)
    ensures Chain(f, id, s[..i + 1])
  {
    var longer := s[..i + 1];
    forall j | 0 <= j < |longer| ensures LinkAt(f, id, longer, j) {
      assert j < i ==> LinkAt(f, id, s[..i], j);
    }
  }

  lemma LastIsGreatest<T>(f: Fields<T>, id: string, s: seq<T>, chain: seq<T>)
    requires Ascending(f, s) && ChainOf(f, id, chain, s) && s != [] && |s| == |chain|
    ensures s[|s| - 1] == chain[|s| - 1]
  {
    var k := |s| - 1;
    assert chain[k] in multiset(s);
    var i :| 0 <= i < |s| && s[i] == chain[k];
    assert s[k] in multiset(chain);
    var j :| 0 <= j < |chain| && chain[j] == s[k];
    assert LinkAt(f, id, chain, k) && LinkAt(f, id, chain, j);
  }

  lemma FrontsAgree<T>(s: seq<T>, t: seq<T>)
    requires multiset(s) == multiset(t) && s != [] && |s| == |t| && s[|s| - 1] == t[|t| - 1]
    ensures multiset(s[..|s| - 1]) == multiset(t[..|t| - 1])
  {
    SplitLast(s);
    SplitLast(t);
    var a, b, x := multiset(s[..|s| - 1]), multiset(t[..|t| - 1]), multiset{s[|s| - 1]};
    assert a == (a + x) - x && b == (b + x) - x;
  }

  /** A sorted listing of a chain's records is the chain: there is no other order they could stand in. */
  lemma {:induction false} SortedChain<T>(f: Fields<T>, id: string, s: seq<T>, chain: seq<T>)
    requires Ascending(f, s) && ChainOf(f, id, chain, s)
    ensures s == chain
  {
    hide Chain;
    assert |s| == |multiset(s)| && |chain| == |multiset(chain)|;
    if s != [] {
      var k := |s| - 1;
      LastIsGreatest(f, id, s, chain);
      ChainPrefix(f, id, chain, k);
      FrontsAgree(s, chain);
      assert ChainOf(f, id, chain[..k], s[..k]);
      assert Ascending(f, s[..k]);
      SortedChain(f, id, s[..k], chain[..k]);
      assert s == s[..k] + [s[k]] && chain == chain[..k] + [chain[k]];
    }
  }

  /** Two different records of one revision never belong to one chain. */
  lemma ForkIsNoChain<T>(f: Fields<T>, id: string, files: seq<T>, c: T, d: T)
    requires c in files && d in files && c != d && f.revision(c) == f.revision(d)
    ensures forall chain :: !ChainOf(f, id, chain, files)
  {
    forall chain: seq<T> | multiset(chain) == multiset(files) ensures !Chain(f, id, chain) {
      assert c in multiset(chain) && d in multiset(chain);
      var i :| 0 <= i < |chain| && chain[i] == c;
      var j :| 0 <= j < |chain| && chain[j] == d;
      assert LinkAt(f, id, chain, i) ==> !LinkAt(f, id, chain, j);
    }
  }

  // ---------- Gathering records from a listing ----------

  /** The records of the entries that hold one, in listing order. */
  function Gather<E, T>(pick: E -> Option<T>, s: seq<E>): seq<T> {
    if s == [] then []
    else
      var front := Gather(pick, s[..|s| - 1]);
      var last := pick(s[|s| - 1]);
      if last.Some? then front + [last.value] else front
  }

  function Picked<T>(o: Option<T>): multiset<T> {
    if o.Some? then multiset{o.value} else multiset{}
  }

  lemma GatherSplit<E, T>(pick: E -> Option<T>, s: seq<E>)
    requires s != []
    ensures multiset(Gather(pick, s)) == multiset(Gather(pick, s[..|s| - 1])) + Picked(pick(s[|s| - 1]))
  {
  }

  lemma {:induction false} GatherWithout<E, T>(pick: E -> Option<T>, s: seq<E>, i: nat)
    requires i < |s|
    ensures multiset(Gather(pick, s)) == multiset(Gather(pick, s[..i] + s[i + 1..])) + Picked(pick(s[i]))
    decreases |s|
  {
    hide Gather, Picked;
    var k := |s| - 1;
    GatherSplit(pick, s);
    if i == k {
      assert s[..i] + s[i + 1..] == s[..k];
    } else {
      var rest := s[..i] + s[i + 1..];
      assert rest[..|rest| - 1] == s[..k][..i] + s[..k][i + 1..];
      assert rest[|rest| - 1] == s[k];
      GatherSplit(pick, rest);
      GatherWithout(pick, s[..k], i);
    }
  }

  lemma {:induction false} WithoutOne<E>(s: seq<E>, i: nat)
    requires i < |s|
    ensures multiset(s) == multiset(s[..i] + s[i + 1..]) + multiset{s[i]}
  {
    assert s == s[..i] + [s[i]] + s[i + 1..];
  }

  lemma RemainderAgrees<E>(s: seq<E>, t: seq<E>, i: nat)
    requires multiset(s) == multiset(t) && s != [] && i < |t| && t[i] == s[|s| - 1]
    ensures multiset(s[..|s| - 1]) == multiset(t[..i] + t[i + 1..])
  {
    SplitLast(s);
    WithoutOne(t, i);
    var a, b, x := multiset(s[..|s| - 1]), multiset(t[..i] + t[i + 1..]), multiset{t[i]};
    assert a == (a + x) - x && b == (b + x) - x;
  }

  lemma LastOccurs<E>(s: seq<E>, t: seq<E>) returns (i: nat)
    requires multiset(s) == multiset(t) && s != []
    ensures i < |t| && t[i] == s[|s| - 1]
  {
    assert s[|s| - 1] in multiset(t);
    i :| 0 <= i < |t| && t[i] == s[|s| - 1];
  }

  /** Listing the same entries in another order gathers the same records. */
  lemma {:induction false} GatherForgetsOrder<E, T>(pick: E -> Option<T>, s: seq<E>, t: seq<E>)
    requires multiset(s) == multiset(t)
    ensures multiset(Gather(pick, s)) == multiset(Gather(pick, t))
    decreases |s|
  {
    assert |s| == |multiset(s)| && |t| == |multiset(t)|;
    if s != [] {
      hide Gather, Picked;
      var i := LastOccurs(s, t);
      RemainderAgrees(s, t, i);
      GatherSplit(pick, s);
      GatherWithout(pick, t, i);
      GatherForgetsOrder(pick, s[..|s| - 1], t[..i] + t[i + 1..]);
    }
  }
}
