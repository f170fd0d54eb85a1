/**
 The project's transaction log: content-addressed files reduced to one chain. The order in
 which the files are listed plays no part, so a scan is a set.
 */
module ProjectLog {
  import opened Wrappers
  import opened ProjectTypes

  /** What a directory scan yields: the valid transaction files, and the paths of everything else but staging. */
  datatype Scan = Scan(transactions: set<Transaction>, quarantined: set<string>)

  datatype Projection = Projection(
    applied: seq<Transaction>, watermark: Option<Digest>, sources: set<Digest>, damaged: set<string>, complete: bool)

  function Sources(address: Addressing, files: set<Transaction>): set<Digest> {
    set t | t in files :: address(t)
  }

  function Roots(files: set<Transaction>): set<Transaction> {
    set t | t in files && t.previous.None?
  }

  function Children(address: Addressing, files: set<Transaction>, t: Transaction): set<Transaction> {
    set u | u in files && u.previous == Some(address(t))
  }

  /** Another file claims the same command, or one of the same events. */
  predicate IdentityConflict(files: set<Transaction>, t: Transaction) {
    exists u :: u in files && u != t && (u.command_id == t.command_id || EventIds(u) * EventIds(t) != {})
  }

  predicate MissingPredecessor(address: Addressing, files: set<Transaction>, t: Transaction) {
    t.previous.Some? && t.previous.value !in Sources(address, files)
  }

  /** Follows the chain from `t`, stopping at a cycle, an identity conflict or a fork. */
  ghost function Walk(
    address: Addressing, files: set<Transaction>, t: Transaction, seen: set<Transaction>): seq<Transaction>
    requires t in files && seen <= files
    decreases files - seen
  {
    if t in seen || IdentityConflict(files, t) then []
    else
      var children := Children(address, files, t);
      if children == {} then [t]
      else
        var child :| child in children;
        if children == {child} then [t] + Walk(address, files, child, seen + {t}) else [t]
  }

  ghost function Applied(address: Addressing, files: set<Transaction>): seq<Transaction> {
    if Roots(files) == {} then []
    else
      var root :| root in Roots(files);
      if Roots(files) == {root} then Walk(address, files, root, {}) else []
  }

  lemma WalkOnce(address: Addressing, files: set<Transaction>, t: Transaction, seen: set<Transaction>)
    requires t in files && seen <= files
    ensures t in seen || IdentityConflict(files, t) ==> Walk(address, files, t, seen) == []
    ensures t !in seen && !IdentityConflict(files, t) && |Children(address, files, t)| != 1 ==>
      Walk(address, files, t, seen) == [t]
    ensures forall child :: t !in seen && !IdentityConflict(files, t) && Children(address, files, t) == {child} ==>
      child in files && Walk(address, files, t, seen) == [t] + Walk(address, files, child, seen + {t})
  {
    hide IdentityConflict;
    var children := Children(address, files, t);
    if t !in seen && !IdentityConflict(files, t) && children != {} {
      var child :| child in children && Walk(address, files, t, seen) ==
        if children == {child} then [t] + Walk(address, files, child, seen + {t}) else [t];
      SoleElement(children, child);
    }
  }

  /** The reducer's loop: follow the only child for as long as there is exactly one. */
  method FollowChain(address: Addressing, files: set<Transaction>) returns (applied: seq<Transaction>)
    ensures applied == Applied(address, files)
  {
    hide Walk, Children, IdentityConflict;
    applied := [];
    var roots := Roots(files);
    if |roots| != 1 {
      ManyRoots(files);
      return;
    }
    var root :| root in roots;
    SoleElement(roots, root);
    var current := Some(root);
    var seen: set<Transaction> := {};
    hide Applied, Roots;
    while current.Some?
      invariant seen <= files && (current.Some? ==> current.value in files)
      invariant Applied(address, files) == applied + Remaining(address, files, current, seen)
      decreases current.Some?, files - seen
    {
      var t := current.value;
      WalkOnce(address, files, t, seen);
      if t in seen || IdentityConflict(files, t) {
        break;
      }
      var children := Children(address, files, t);
      applied, seen := applied + [t], seen + {t};
      if |children| != 1 {
        current := None;
      } else {
        var child :| child in children;
        SoleElement(children, child);
        current := Some(child);
      }
    }
  }

  ghost function Remaining(
    address: Addressing, files: set<Transaction>, current: Option<Transaction>,
    seen: set<Transaction>): seq<Transaction>
    requires seen <= files && (current.Some? ==> current.value in files)
  {
    if current.None? then [] else Walk(address, files, current.value, seen)
  }

  lemma SoleElement(s: set<Transaction>, t: Transaction)
    requires t in s
    ensures |s| == 1 <==> s == {t}
  {
    if |s| == 1 {
      forall u | u in s ensures u == t {
        assert |s - {t}| == 0;
      }
    }
  }

  lemma ManyRoots(files: set<Transaction>)
    requires |Roots(files)| != 1
    ensures forall t :: Roots(files) != {t}
  {
    forall t ensures Roots(files) != {t} {
      assert |{t}| == 1;
    }
  }

  function Tip(address: Addressing, log: seq<Transaction>): Option<Digest> {
    if log == [] then None else Some(address(log[|log| - 1]))
  }

  ghost function Reduce(address: Addressing, scan: Scan): Projection {
    var files := scan.transactions;
    var applied := Applied(address, files);
    Projection(
      applied, Tip(address, applied), Sources(address, files), scan.quarantined,
      && (forall t :: t in files ==> t in applied)
      && scan.quarantined == {}
      && (forall t :: t in files ==> !MissingPredecessor(address, files, t) && !IdentityConflict(files, t)))
  }

  // ---------- Complete means one chain ----------

  ghost predicate IdentitiesDistinct(log: seq<Transaction>) {
    forall i, j :: 0 <= i < j < |log| ==>
      log[i].command_id != log[j].command_id && EventIds(log[i]) * EventIds(log[j]) == {}
  }

  predicate Linked(address: Addressing, log: seq<Transaction>) {
    && (log != [] ==> log[0].previous == None)
    && forall i :: 0 < i < |log| ==> log[i].previous == Some(address(log[i - 1]))
  }

  ghost predicate IsChain(address: Addressing, log: seq<Transaction>) {
    Linked(address, log) && IdentitiesDistinct(log)
  }

  function Files(log: seq<Transaction>): set<Transaction> {
    set t | t in log
  }

  lemma ChainHasNoConflict(log: seq<Transaction>, t: Transaction)
    requires IdentitiesDistinct(log) && t in log
    ensures !IdentityConflict(Files(log), t)
  {
    var i :| 0 <= i < |log| && log[i] == t;
    forall u | u in Files(log) && u != t
      ensures u.command_id != t.command_id && EventIds(u) * EventIds(t) == {}
    {
      var j :| 0 <= j < |log| && log[j] == u;
      assert EventIds(u) * EventIds(t) == EventIds(t) * EventIds(u);
    }
  }

  lemma ChainChildren(address: Addressing, log: seq<Transaction>, i: nat)
    requires Injective(address) && IsChain(address, log) && i < |log|
    ensures Children(address, Files(log), log[i]) == if i + 1 < |log| then {log[i + 1]} else {}
    ensures Roots(Files(log)) == {log[0]}
  {
    forall u | u in Children(address, Files(log), log[i]) ensures i + 1 < |log| && u == log[i + 1] {
      var j :| 0 <= j < |log| && log[j] == u;
      assert j > 0 && address(log[j - 1]) == address(log[i]);
      assert log[j - 1] == log[i];
    }
    forall u | u in Files(log) && u != log[0] ensures u !in Roots(Files(log)) {
      var j :| 0 < j < |log| && log[j] == u;
      assert u.previous == Some(address(log[j - 1]));
    }
  }

  lemma {:induction false} WalkOfChain(address: Addressing, log: seq<Transaction>, i: nat)
    requires Injective(address) && IsChain(address, log) && i < |log|
    ensures Walk(address, Files(log), log[i], Files(log[..i])) == log[i..]
    decreases |log| - i
  {
    ChainHasNoConflict(log, log[i]);
    ChainChildren(address, log, i);
    assert log[i] !in Files(log[..i]);
    if i + 1 < |log| {
      assert Files(log[..i + 1]) == Files(log[..i]) + {log[i]} by { assert log[..i + 1] == log[..i] + [log[i]]; }
      WalkOfChain(address, log, i + 1);
    }
  }

  /** Reducing the files of a chain, in whatever order they are listed, gives back the chain. */
  lemma ReduceOfChain(address: Addressing, log: seq<Transaction>)
    requires Injective(address) && IsChain(address, log)
    ensures Reduce(address, Scan(Files(log), {})) ==
            Projection(log, Tip(address, log), Sources(address, Files(log)), {}, true)
  {
    var files := Files(log);
    if log != [] {
      ChainChildren(address, log, 0);
      assert Files(log[..0]) == {};
      WalkOfChain(address, log, 0);
      assert log[0..] == log;
      assert Applied(address, files) == log;
      forall t | t in files ensures !MissingPredecessor(address, files, t) && !IdentityConflict(files, t) {
        ChainHasNoConflict(log, t);
        var i :| 0 <= i < |log| && log[i] == t;
        if i > 0 {
          assert log[i - 1] in files;
        }
      }
    } else {
      assert files == {};
    }
  }

  lemma {:induction false} WalkIsLinked(
    address: Addressing, files: set<Transaction>, t: Transaction, seen: set<Transaction>)
    requires t in files && seen <= files
    ensures var w := Walk(address, files, t, seen);
            && (w != [] ==> w[0] == t)
            && (forall i :: 0 < i < |w| ==> w[i].previous == Some(address(w[i - 1])))
            && (forall i :: 0 <= i < |w| ==> w[i] in files && w[i] !in seen && !IdentityConflict(files, w[i]))
            && (forall i, j :: 0 <= i < j < |w| ==> w[i] != w[j])
    decreases files - seen
  {
    if t !in seen && !IdentityConflict(files, t) {
      var children := Children(address, files, t);
      if children != {} {
        var child :| child in children && Walk(address, files, t, seen) ==
          if children == {child} then [t] + Walk(address, files, child, seen + {t}) else [t];
        if children == {child} {
          WalkIsLinked(address, files, child, seen + {t});
        }
      }
    }
  }

  /** What is applied is always a chain of files, complete or not. */
  lemma AppliedIsChain(address: Addressing, files: set<Transaction>)
    ensures IsChain(address, Applied(address, files)) && Files(Applied(address, files)) <= files
  {
    var log := Applied(address, files);
    if log != [] {
      var root :| root in Roots(files) && log == Walk(address, files, root, {});
      WalkIsLinked(address, files, root, {});
      forall i, j | 0 <= i < j < |log| ensures log[i].command_id != log[j].command_id
        && EventIds(log[i]) * EventIds(log[j]) == {} {
        assert log[j] in files && log[j] != log[i] && !IdentityConflict(files, log[i]);
        assert EventIds(log[j]) * EventIds(log[i]) == EventIds(log[i]) * EventIds(log[j]);
      }
    }
  }

  /** A projection is complete exactly when the undamaged files are the elements of one chain. */
  lemma CompleteExactlyWhenChain(address: Addressing, scan: Scan)
    requires Injective(address)
    ensures Reduce(address, scan).complete <==>
            scan.quarantined == {} && exists log :: IsChain(address, log) && Files(log) == scan.transactions
  {
    if Reduce(address, scan).complete {
      AppliedIsChain(address, scan.transactions);
      assert Files(Applied(address, scan.transactions)) == scan.transactions;
    }
    if scan.quarantined == {} && exists log :: IsChain(address, log) && Files(log) == scan.transactions {
      var log :| IsChain(address, log) && Files(log) == scan.transactions;
      ReduceOfChain(address, log);
    }
  }

  // ---------- The high watermark stands for the whole log ----------

  lemma {:induction false} TipDeterminesChain(address: Addressing, a: seq<Transaction>, b: seq<Transaction>)
    requires Injective(address) && Linked(address, a) && Linked(address, b)
    requires Tip(address, a) == Tip(address, b)
    ensures a == b
    decreases |a|
  {
    if a != [] {
      var m, n := |a| - 1, |b| - 1;
      assert a[m] == b[n];
      assert a[m].previous == b[n].previous;
      assert Tip(address, a[..m]) == Tip(address, b[..n]);
      TipDeterminesChain(address, a[..m], b[..n]);
      assert a == a[..m] + [a[m]] && b == b[..n] + [b[n]];
    }
  }

  /** Two complete logs with the same high watermark hold the same files. */
  lemma WatermarkDeterminesFiles(address: Addressing, a: Scan, b: Scan)
    requires Injective(address) && Reduce(address, a).complete && Reduce(address, b).complete
    requires Reduce(address, a).watermark == Reduce(address, b).watermark
    ensures a.transactions == b.transactions
  {
    AppliedIsChain(address, a.transactions);
    AppliedIsChain(address, b.transactions);
    TipDeterminesChain(address, Applied(address, a.transactions), Applied(address, b.transactions));
    assert a.transactions == Files(Applied(address, a.transactions));
    assert b.transactions == Files(Applied(address, b.transactions));
  }

  // ---------- Publishing ----------

  ghost predicate FreshIdentity(files: set<Transaction>, t: Transaction) {
    forall u :: u in files ==> u.command_id != t.command_id && EventIds(u) * EventIds(t) == {}
  }

  /**
   Publishing a transaction on top of the high watermark of a complete log leaves the log complete
   exactly when its command and event identities are new. Nothing in the executor checks that.
   */
  lemma PublishKeepsComplete(address: Addressing, scan: Scan, t: Transaction)
    requires Injective(address) && Reduce(address, scan).complete && t !in scan.transactions
    requires t.previous == Reduce(address, scan).watermark
    ensures var after := Reduce(address, Scan(scan.transactions + {t}, scan.quarantined));
            && (after.complete <==> FreshIdentity(scan.transactions, t))
            && (after.complete ==>
              after.applied == Reduce(address, scan).applied + [t] && after.watermark == Some(address(t)))
  {
    CompleteIsItsChain(address, scan);
    hide Injective, Reduce, FreshIdentity, IsChain, Files;
    var log := Reduce(address, scan).applied;
    WatermarkIsTip(address, scan);
    if FreshIdentity(scan.transactions, t) {
      FreshExtendsChain(address, log, t);
      FilesOfLonger(log, t);
      CompleteHasNoQuarantine(address, scan);
      ReduceOfChain(address, log + [t]);
    } else {
      StaleIsNeverComplete(address, scan, t);
    }
  }

  lemma WatermarkIsTip(address: Addressing, scan: Scan)
    ensures Reduce(address, scan).watermark == Tip(address, Reduce(address, scan).applied)
  {
  }

  lemma CompleteHasNoQuarantine(address: Addressing, scan: Scan)
    requires Reduce(address, scan).complete
    ensures scan.quarantined == {}
  {
  }

  lemma FilesOfLonger(log: seq<Transaction>, t: Transaction)
    ensures Files(log + [t]) == Files(log) + {t}
  {
  }

  lemma FreshExtendsChain(address: Addressing, log: seq<Transaction>, t: Transaction)
    requires IsChain(address, log) && t.previous == Tip(address, log) && FreshIdentity(Files(log), t)
    ensures IsChain(address, log + [t])
  {
    var longer := log + [t];
    forall i, j | 0 <= i < j < |longer|
      ensures longer[i].command_id != longer[j].command_id && EventIds(longer[i]) * EventIds(longer[j]) == {}
    {
      assert longer[i] in log;
    }
  }

  lemma StaleIsNeverComplete(address: Addressing, scan: Scan, t: Transaction)
    requires t !in scan.transactions && !FreshIdentity(scan.transactions, t)
    ensures !Reduce(address, Scan(scan.transactions + {t}, scan.quarantined)).complete
  {
    var u :| u in scan.transactions && (u.command_id == t.command_id || EventIds(u) * EventIds(t) != {});
    assert IdentityConflict(scan.transactions + {t}, t);
  }

  /** Once two files claim one identity, no later publication makes the log complete again. */
  lemma ConflictIsForever(address: Addressing, scan: Scan, later: Scan, t: Transaction)
    requires t in scan.transactions && IdentityConflict(scan.transactions, t)
    requires scan.transactions <= later.transactions
    ensures !Reduce(address, later).complete
  {
    var u :| u in scan.transactions && u != t && (u.command_id == t.command_id || EventIds(u) * EventIds(t) != {});
    assert IdentityConflict(later.transactions, t);
  }

  // ---------- Replaying a command at its own point in the log ----------

  /** The projection as it stood at the applied transaction `index`. */
  ghost function ProjectionAt(address: Addressing, scan: Scan, index: nat): Projection
    requires index < |Reduce(address, scan).applied|
  {
    var current := Reduce(address, scan);
    if index == |current.applied| - 1 then current
    else Reduce(address, Scan(Files(current.applied[..index + 1]), {}))
  }

  /** The projection as it stood at `target`, or none when the chain does not reach it. */
  ghost function ProjectionAtTransaction(address: Addressing, scan: Scan, target: Transaction): Option<Projection> {
    var applied := Reduce(address, scan).applied;
    if target !in applied then None
    else
      var index :| 0 <= index < |applied| && applied[index] == target;
      Some(ProjectionAt(address, scan, index))
  }

  lemma ChainPrefix(address: Addressing, log: seq<Transaction>, k: nat)
    requires IsChain(address, log) && k <= |log|
    ensures IsChain(address, log[..k])
  {
  }

  /** A complete log that grew is a prefix of what it became, ending where its tip now stands. */
  lemma GrowthIsPrefix(address: Addressing, a: seq<Transaction>, b: seq<Transaction>, index: nat)
    requires Injective(address) && IsChain(address, a) && IsChain(address, b) && a != []
    requires index < |b| && b[index] == a[|a| - 1]
    ensures a == b[..index + 1]
  {
    hide Injective;
    ChainPrefix(address, b, index + 1);
    assert b[..index + 1][index] == b[index];
    TipDeterminesChain(address, a, b[..index + 1]);
  }

  lemma CompleteIsItsChain(address: Addressing, scan: Scan)
    requires Injective(address) && Reduce(address, scan).complete
    ensures var log := Reduce(address, scan).applied;
            && IsChain(address, log) && Files(log) == scan.transactions
            && Reduce(address, scan) == Reduce(address, Scan(Files(log), {}))
  {
    AppliedIsChain(address, scan.transactions);
    assert Files(Applied(address, scan.transactions)) == scan.transactions;
  }

  /**
   Replay stability: whatever has been appended since, the projection at a transaction is the one the
   log reduced to when that transaction was its high watermark.
   */
  lemma ReplayIsStable(address: Addressing, earlier: Scan, later: Scan)
    requires Injective(address) && Reduce(address, earlier).complete && Reduce(address, later).complete
    requires earlier.transactions <= later.transactions && earlier.transactions != {}
    ensures var applied := Reduce(address, earlier).applied;
            && applied != []
            && applied <= Reduce(address, later).applied
            && ProjectionAtTransaction(address, later, applied[|applied| - 1]) == Some(Reduce(address, earlier))
  {
    hide Reduce, Injective, IsChain;
    var a, b := Reduce(address, earlier).applied, Reduce(address, later).applied;
    CompleteIsItsChain(address, earlier);
    CompleteIsItsChain(address, later);
    assert a != [] by {
      assert Files([]) == {};
    }
    var target := a[|a| - 1];
    assert target in Files(a);
    assert target in Files(b);
    var index :| 0 <= index < |b| && b[index] == target
      && ProjectionAtTransaction(address, later, target) == Some(ProjectionAt(address, later, index));
    GrowthIsPrefix(address, a, b, index);
    if index == |b| - 1 {
      assert b[..index + 1] == b;
      assert Reduce(address, later) == Reduce(address, Scan(Files(a), {}));
      assert ProjectionAt(address, later, index) == Reduce(address, later);
    } else {
      assert ProjectionAt(address, later, index) == Reduce(address, Scan(Files(a), {}));
    }
  }
}
