/** The published crash table of one command, against what its crashes leave on disk and in the outbox. */
module CrashTable {
  import opened Wrappers
  import opened ProjectTypes
  import opened CommandExecution
  import opened CommandInvariant
  import CommandBuild
  import CommandOutcome
  import CommandSafety
  import LogHealth
  import OutcomeRuns
  import opened CrashMachine
  import opened CrashInvariant

  datatype Action = ExecuteAgain | RecoverIt
  datatype Persistence = NotStarted | StagingOnly | PublishedUnconfirmed | DirectorySynced
  datatype EffectState = AbsentEffect | DeclaredPending | MayHaveCompleted
  datatype Row = Row(whole: bool, action: Action, persistence: Persistence, effect: EffectState)

  /** The table as published. */
  function Matrix(b: Boundary): Row {
    match b
    case BeforeAuthorization => Row(false, ExecuteAgain, NotStarted, AbsentEffect)
    case AfterValidation => Row(false, ExecuteAgain, NotStarted, AbsentEffect)
    case BeforeCommit => Row(false, ExecuteAgain, NotStarted, AbsentEffect)
    case AfterLockAcquired => Row(false, ExecuteAgain, NotStarted, AbsentEffect)
    case AfterSnapshot => Row(false, ExecuteAgain, NotStarted, AbsentEffect)
    case BeforeTempWrite => Row(false, ExecuteAgain, StagingOnly, AbsentEffect)
    case AfterTempWrite => Row(false, ExecuteAgain, StagingOnly, AbsentEffect)
    case AfterFileSync => Row(false, ExecuteAgain, StagingOnly, AbsentEffect)
    case AfterPublish => Row(true, RecoverIt, PublishedUnconfirmed, DeclaredPending)
    case AfterDirectorySync => Row(true, RecoverIt, DirectorySynced, DeclaredPending)
    case AfterTransactionPublish => Row(true, RecoverIt, DirectorySynced, DeclaredPending)
    case AfterProjection => Row(true, RecoverIt, DirectorySynced, DeclaredPending)
    case AfterCommit => Row(true, RecoverIt, DirectorySynced, DeclaredPending)
    case BeforeEffect(_) => Row(true, RecoverIt, DirectorySynced, DeclaredPending)
    case AfterEffect(_) => Row(true, RecoverIt, DirectorySynced, MayHaveCompleted)
    case BeforeReceipt => Row(true, RecoverIt, DirectorySynced, MayHaveCompleted)
  }

  // ---------- What a restarted process finds ----------

  predicate Carries(t: Transaction, r: Request) {
    ScopeOf(t) == r.scope || t.command_id == r.command_id
  }

  ghost predicate Visible(m: Machine, r: Request) {
    exists t :: t in m.core.files && ScopeOf(t) == r.scope
  }

  /** Recovering by command id would take up the transaction of this request. */
  ghost predicate Recoverable(m: Machine, r: Request) {
    var found := DecideRecovery(r.command_id, m.core.files, m.core.files);
    found.Returning? && ScopeOf(found.answer) == r.scope
  }

  ghost predicate Confirmed(m: Machine, r: Request) {
    exists t :: t in m.synced && ScopeOf(t) == r.scope
  }

  predicate Staged(m: Machine, r: Request) {
    exists p :: p in m.temps && Carries(p.transaction, r)
  }

  ghost predicate Handed(m: Machine, key: string) {
    key in m.ledger.receipts || exists d :: Offer(d, key) in m.offers
  }

  /** The effect a boundary speaks of: its own, where the table's one row is read for each effect; or all of them. */
  predicate SpeaksOf(b: Boundary, i: nat) {
    (b.BeforeEffect? || b.AfterEffect? ==> b.k == i)
  }

  ghost predicate SomeHanded(m: Machine, r: Request, b: Boundary) {
    exists t, i :: HandedAt(m, r, b, t, i)
  }

  ghost predicate HandedAt(m: Machine, r: Request, b: Boundary, t: Transaction, i: nat) {
    && t in m.core.files && Carries(t, r) && i < |EffectsOf(t)| && SpeaksOf(b, i)
    && Handed(m, EffectsOf(t)[i].effect_key)
  }

  ghost function PersistenceOf(m: Machine, r: Request): Persistence {
    if Confirmed(m, r) then DirectorySynced
    else if Visible(m, r) then PublishedUnconfirmed
    else if Staged(m, r) then StagingOnly
    else NotStarted
  }

  ghost function EffectStateOf(m: Machine, r: Request, b: Boundary): EffectState {
    if !Visible(m, r) then AbsentEffect else if SomeHanded(m, r, b) then MayHaveCompleted else DeclaredPending
  }

  /** The row that describes a state. */
  ghost function Observed(m: Machine, r: Request, b: Boundary): Row {
    Row(Visible(m, r), if Recoverable(m, r) then RecoverIt
      else ExecuteAgain, PersistenceOf(m, r), EffectStateOf(m, r, b))
  }

  // ---------- The table against the machine ----------

  ghost function Reaching(
    address: Addressing, log: seq<Transaction>, ledger: CommandOutcome.Ledger, acts: seq<Act>): Machine {
    Acting(address, Opening(log, ledger), acts)
  }

  lemma ReachedIsSound(address: Addressing, log: seq<Transaction>, ledger: CommandOutcome.Ledger, acts: seq<Act>)
    requires Injective(address) && CommandSafety.GoodLog(address, log)
    ensures Sound(address, Reaching(address, log, ledger, acts))
  {
    hide Injective, Acting, Sound;
    OpeningIsSound(address, log, ledger);
    ActingKeeps(address, Opening(log, ledger), acts);
  }

  ghost predicate Executes(m: Machine, c: Caller, r: Request) {
    c in m.at && c in m.core.calls && GoalOf(m.core.calls[c]) == Some(Execute(r))
  }

  /** Nothing of this command stems from anybody but `c`: no publication, no staging file, no delivery. */
  ghost predicate Undisturbed(m: Machine, c: Caller, r: Request) {
    && (forall t :: t in m.core.files && Carries(t, r) ==> t in m.linked_by && m.linked_by[t] == c)
    && (forall p :: p in m.temps && Carries(p.transaction, r) ==> p.owner == c)
    && (forall t, i | t in m.core.files && Carries(t, r) && 0 <= i < |EffectsOf(t)| ::
         Handed(m, EffectsOf(t)[i].effect_key) ==> Offer(c, EffectsOf(t)[i].effect_key) in m.offers)
  }

  /** Before its link an undisturbed command is nowhere; afterwards it is one transaction. */
  lemma OwnTransaction(address: Addressing, m: Machine, c: Caller, r: Request) returns (t: Option<Transaction>)
    requires Sound(address, m) && Executes(m, c, r) && Undisturbed(m, c, r)
    ensures t.Some? <==> !BeforeLink(m.at[c].boundary)
    ensures t.Some? ==> t.value in m.core.files && ScopeOf(t.value) == r.scope && t.value.command_id == r.command_id
    ensures t.Some? ==> t.value in m.linked_by && m.linked_by[t.value] == c
    ensures forall u :: u in m.core.files && Carries(u, r) ==> t == Some(u)
  {
    hide Inv, CallFits, EffectsOf, OffersAre;
    assert PlaceOk(m, c);
    t := None;
    if BeforeLink(m.at[c].boundary) {
      NothingYet(m, c);
    } else {
      var u :| u in m.core.files && Answers(Execute(r), u);
      assert Carries(u, r);
      t := Some(u);
    }
  }

  lemma WholeColumn(address: Addressing, m: Machine, c: Caller, r: Request)
    requires Sound(address, m) && Executes(m, c, r) && Undisturbed(m, c, r)
    ensures Visible(m, r) <==> Matrix(m.at[c].boundary).whole
  {
    hide Sound, Undisturbed;
    var t := OwnTransaction(address, m, c, r);
  }

  lemma ActionColumn(address: Addressing, m: Machine, c: Caller, r: Request)
    requires Sound(address, m) && Executes(m, c, r) && Undisturbed(m, c, r)
    ensures Recoverable(m, r) <==> Matrix(m.at[c].boundary).action.RecoverIt?
  {
    hide Sound, Undisturbed, DecideRecovery;
    var t := OwnTransaction(address, m, c, r);
    if t.Some? {
      LogHealth.RecoveryFindsExactly(r.command_id, m.core.files, m.core.files, t.value);
    } else {
      RecoveryAnswersFromLog(r.command_id, m.core.files);
    }
  }

  lemma RecoveryAnswersFromLog(command_id: Id, files: set<Transaction>)
    ensures var found := DecideRecovery(command_id, files, files);
      found.Returning? ==> found.answer in files && found.answer.command_id == command_id
  {
    var matches := set t | t in files && t.command_id == command_id;
    SoleOfMatches(matches);
    if Sole(matches).Found? {
      assert Sole(matches).transaction in matches;
    }
  }

  lemma PersistenceColumn(address: Addressing, m: Machine, c: Caller, r: Request)
    requires Sound(address, m) && Executes(m, c, r) && Undisturbed(m, c, r)
    ensures PersistenceOf(m, r) == Matrix(m.at[c].boundary).persistence
  {
    hide Inv, CallFits, Answered, OffersAre, EffectsOf, Handed;
    var t := OwnTransaction(address, m, c, r);
    assert PlaceOk(m, c);
    var call, b := m.core.calls[c], m.at[c].boundary;
    if BeforeStaging(b) {
      NothingYet(m, c);
    } else if Staging(b) {
      StagedCarries(address, m, c, r);
      assert Carries(Temp(c, call.built, !b.BeforeTempWrite?).transaction, r);
    }
  }

  lemma StagedCarries(address: Addressing, m: Machine, c: Caller, r: Request)
    requires Sound(address, m) && Executes(m, c, r) && Staging(m.at[c].boundary)
    ensures m.core.calls[c].Checked? && Carries(m.core.calls[c].built, r)
  {
    hide Complete, Watermark, Attributed;
    PlaceFits(m, c);
    assert CallOk(address, m.core.files, m.core.lock, c, m.core.calls[c]);
  }

  /** The effects of the command this call carries out. */
  ghost predicate WithoutEffects(m: Machine, r: Request) {
    forall t :: t in m.core.files && Carries(t, r) ==> EffectsOf(t) == []
  }

  lemma AnswerIsOwn(address: Addressing, m: Machine, c: Caller, r: Request, t: Transaction)
    requires Sound(address, m) && Executes(m, c, r) && Effecting(m.at[c].boundary)
    requires forall u :: u in m.core.files && Carries(u, r) ==> u == t
    ensures m.core.calls[c].Returned? && m.core.calls[c].answer == t
  {
    hide Complete, Watermark, Attributed;
    PlaceFits(m, c);
    assert CallOk(address, m.core.files, m.core.lock, c, m.core.calls[c]);
  }

  lemma EffectColumn(address: Addressing, m: Machine, c: Caller, r: Request)
    requires Sound(address, m) && Executes(m, c, r) && Undisturbed(m, c, r)
    ensures EffectStateOf(m, r, m.at[c].boundary) == Matrix(m.at[c].boundary).effect <==>
      !(m.at[c].boundary.BeforeReceipt? && WithoutEffects(m, r))
  {
    hide Inv, Answered, EffectsOf, LinksFlushed, CommandBuild.ExtractEffects;
    var t := OwnTransaction(address, m, c, r);
    var b := m.at[c].boundary;
    if t.Some? {
      if Effecting(b) {
        AnswerIsOwn(address, m, c, r, t.value);
        EffectsHanded(address, m, c, r, t.value);
      } else {
        NothingYet(m, c);
      }
    }
  }

  lemma EffectsHanded(address: Addressing, m: Machine, c: Caller, r: Request, t: Transaction)
    requires Sound(address, m) && Undisturbed(m, c, r) && c in m.at && Effecting(m.at[c].boundary)
    requires c in m.core.calls && m.core.calls[c].Returned? && m.core.calls[c].answer == t
    requires t in m.core.files && Carries(t, r) && forall u :: u in m.core.files && Carries(u, r) ==> u == t
    ensures var b := m.at[c].boundary;
      SomeHanded(m, r, b) <==> b.AfterEffect? || (b.BeforeReceipt? && EffectsOf(t) != [])
  {
    hide Inv, Answered, EffectsOf, LinksFlushed;
    assert PlaceOk(m, c);
    var effects, b := EffectsOf(t), m.at[c].boundary;
    var n := Reached(t, b);
    assert OffersAre(m.offers, c, effects, n);
    if b.AfterEffect? {
      assert KeyAmong(effects, n, effects[b.k].effect_key);
      assert HandedAt(m, r, b, t, b.k);
    } else if b.BeforeReceipt? && effects != [] {
      assert KeyAmong(effects, n, effects[0].effect_key);
      assert HandedAt(m, r, b, t, 0);
    } else if b.BeforeEffect? {
      EffectKeysDistinct(t);
    }
  }

  lemma EffectKeysDistinct(t: Transaction)
    ensures CommandOutcome.KeysDistinct(EffectsOf(t))
  {
  }

  /**
   At every boundary of an execution nobody else interfered with, the table says exactly what the crash
   leaves for the restarted process to find, with one exception: before the receipt of a command without
   effects no delivery can have completed. And a crash at the boundary changes none of it.
   */
  lemma TableIsExact(
    address: Addressing, log: seq<Transaction>, ledger: CommandOutcome.Ledger, acts: seq<Act>, c: Caller, r: Request)
    requires Injective(address) && CommandSafety.GoodLog(address, log)
    requires var m := Reaching(address, log, ledger, acts); Executes(m, c, r) && Undisturbed(m, c, r)
    ensures var m := Reaching(address, log, ledger, acts);
            var b, crashed := m.at[c].boundary, After(address, m, Die(c));
            && (Observed(m, r, b) == Matrix(b) <==> !(b.BeforeReceipt? && WithoutEffects(m, r)))
            && Observed(crashed, r, b) == Observed(m, r, b) && c !in crashed.at
  {
    hide Injective, Acting, Sound, Undisturbed, Visible, Recoverable, PersistenceOf, EffectStateOf, WithoutEffects;
    var m := Reaching(address, log, ledger, acts);
    ReachedIsSound(address, log, ledger, acts);
    WholeColumn(address, m, c, r);
    ActionColumn(address, m, c, r);
    PersistenceColumn(address, m, c, r);
    EffectColumn(address, m, c, r);
    DyingChangesNothing(address, m, c, r, m.at[c].boundary);
  }

  lemma DyingChangesNothing(address: Addressing, m: Machine, c: Caller, r: Request, b: Boundary)
    ensures var crashed := After(address, m, Die(c));
      Observed(crashed, r, b) == Observed(m, r, b) && c !in crashed.at
  {
    hide DecideRecovery, EffectsOf;
    var crashed := After(address, m, Die(c));
    assert crashed == m.(core := crashed.core, at := crashed.at) && crashed.core.files == m.core.files;
    assert SomeHanded(crashed, r, b) <==> SomeHanded(m, r, b) by {
      forall t, i ensures HandedAt(crashed, r, b, t, i) <==> HandedAt(m, r, b, t, i) {
      }
    }
  }

  // ---------- Where others have been ----------

  lemma RecoverableIsVisible(m: Machine, r: Request)
    ensures Recoverable(m, r) ==> Visible(m, r)
  {
    hide DecideRecovery;
    RecoveryAnswersFromLog(r.command_id, m.core.files);
  }

  /**
   Before its link the table is right about a call exactly when the command's scope is unpublished and, in
   the rows that promise nothing started, no staging file of the command is left.
   */
  lemma RowsBeforeLinkExactly(address: Addressing, m: Machine, c: Caller, r: Request)
    requires Sound(address, m) && Executes(m, c, r) && BeforeLink(m.at[c].boundary)
    ensures var b := m.at[c].boundary;
      Observed(m, r, b) == Matrix(b) <==> !Visible(m, r) && (BeforeStaging(b) ==> !Staged(m, r))
  {
    hide Inv, DecideRecovery, Answered, OffersAre, LinksFlushed;
    RecoverableIsVisible(m, r);
    assert PlaceOk(m, c);
    if Staging(m.at[c].boundary) {
      StagedCarries(address, m, c, r);
      assert Temp(c, m.core.calls[c].built, !m.at[c].boundary.BeforeTempWrite?) in m.temps;
    }
    assert Confirmed(m, r) ==> Visible(m, r);
  }

  ghost predicate Abandoned(m: Machine, p: Temp) {
    p in m.temps && p.owner in m.core.calls && p.owner !in m.at
  }

  /** Only who is running, or has never run before, is running after an act. */
  lemma OnlyNewcomersEnter(address: Addressing, m: Machine, act: Act, d: Caller)
    requires d in m.core.calls && d !in m.at
    ensures d !in After(address, m, act).at
  {
    hide CoreAfter, EffectsOf, Settles, Complete, Watermark;
  }

  lemma OnlyDiskActsStage(address: Addressing, m: Machine, act: Act)
    ensures !OnDisk(act) ==> After(address, m, act).temps == m.temps
  {
    hide CoreAfter, EffectsOf, Settles, Complete, Watermark;
  }

  lemma DiskActLeavesStaging(address: Addressing, m: Machine, act: Act, p: Temp)
    requires Inv(address, m.core) && Abandoned(m, p) && OnDisk(act)
    ensures p in After(address, m, act).temps || p.transaction in m.core.files
  {
    hide CoreAfter, Inv;
    if act.CleanUp? && Confirming(m, act.caller, AfterDirectorySync) {
      PublishedIsThere(address, m, act.caller);
    }
  }

  lemma ActLeavesStaging(address: Addressing, m: Machine, act: Act, p: Temp)
    requires Injective(address) && Sound(address, m) && Abandoned(m, p)
    ensures var n := After(address, m, act); Abandoned(n, p) || p.transaction in n.core.files
  {
    hide Injective, Inv, PlacesOk, After, CoreAfter, Attributed;
    CoreKeeps(address, m, act);
    ActRefines(address, m, act);
    OnlyNewcomersEnter(address, m, act, p.owner);
    OnlyDiskActsStage(address, m, act);
    if OnDisk(act) {
      DiskActLeavesStaging(address, m, act, p);
    }
  }

  /** What a dead process has staged stays until its very bytes have been published. */
  lemma {:induction false} StagingStays(address: Addressing, m: Machine, acts: seq<Act>, p: Temp)
    requires Injective(address) && Sound(address, m) && Abandoned(m, p)
    ensures var n := Acting(address, m, acts); Abandoned(n, p) || p.transaction in n.core.files
    decreases |acts|
  {
    hide Injective, Sound, After, Abandoned;
    if acts != [] {
      var n := After(address, m, acts[0]);
      ActKeeps(address, m, acts[0]);
      ActLeavesStaging(address, m, acts[0], p);
      if Abandoned(n, p) {
        StagingStays(address, n, acts[1..], p);
      } else {
        FilesStay(address, n, acts[1..]);
      }
    }
  }

  lemma {:induction false} FilesStay(address: Addressing, m: Machine, acts: seq<Act>)
    requires Injective(address) && Sound(address, m)
    ensures m.core.files <= Acting(address, m, acts).core.files
    decreases |acts|
  {
    hide Injective, Inv;
    RunRefines(address, m, acts);
    RunKeeps(address, m.core, StepsOf(address, m, acts));
  }

  /**
   A crash at a staging row makes the rows of every later execution of the command wrong: wherever it
   stands before its own staging file, as long as the command is unpublished, the disk shows staging and
   not the `not started` the table says.
   */
  lemma LaterExecutionsFindStaging(
    address: Addressing, m: Machine, c: Caller, r: Request, acts: seq<Act>, d: Caller)
    requires Injective(address) && Sound(address, m) && Executes(m, c, r) && Staging(m.at[c].boundary)
    requires var n := Acting(address, After(address, m, Die(c)), acts);
      Executes(n, d, r) && BeforeStaging(n.at[d].boundary) && !Visible(n, r)
    ensures var n := Acting(address, After(address, m, Die(c)), acts);
      PersistenceOf(n, r) == StagingOnly && Matrix(n.at[d].boundary).persistence == NotStarted
  {
    hide Injective, Sound, Acting, After, Executes, Abandoned, Visible, PersistenceOf;
    var crashed := After(address, m, Die(c));
    var p := DyingAbandons(address, m, c, r);
    ActKeeps(address, m, Die(c));
    StagingStays(address, crashed, acts, p);
    ActingKeeps(address, crashed, acts);
    StagingIsSeen(address, Acting(address, crashed, acts), r, p);
  }

  lemma DyingAbandons(address: Addressing, m: Machine, c: Caller, r: Request) returns (p: Temp)
    requires Injective(address) && Sound(address, m) && Executes(m, c, r) && Staging(m.at[c].boundary)
    ensures Abandoned(After(address, m, Die(c)), p) && ScopeOf(p.transaction) == r.scope
  {
    hide Injective, Inv, CoreAfter, Attributed, Answered, OffersAre, LinksFlushed;
    assert PlaceOk(m, c);
    StagedScope(address, m, c, r);
    CoreKeeps(address, m, Die(c));
    p := Temp(c, m.core.calls[c].built, !m.at[c].boundary.BeforeTempWrite?);
  }

  lemma StagingIsSeen(address: Addressing, m: Machine, r: Request, p: Temp)
    requires Sound(address, m) && (Abandoned(m, p) || p.transaction in m.core.files)
    requires ScopeOf(p.transaction) == r.scope && !Visible(m, r)
    ensures PersistenceOf(m, r) == StagingOnly
  {
    hide Inv, PlacesOk;
    assert Carries(p.transaction, r);
  }

  lemma StagedScope(address: Addressing, m: Machine, c: Caller, r: Request)
    requires Sound(address, m) && Executes(m, c, r) && Staging(m.at[c].boundary)
    ensures m.core.calls[c].Checked? && ScopeOf(m.core.calls[c].built) == r.scope
  {
    hide Complete, Watermark, Attributed;
    PlaceFits(m, c);
    assert CallOk(address, m.core.files, m.core.lock, c, m.core.calls[c]);
  }

  // ---------- At most once ----------

  ghost predicate Declared(files: set<Transaction>, key: string) {
    exists t, i :: t in files && 0 <= i < |EffectsOf(t)| && EffectsOf(t)[i].effect_key == key
  }

  /** The outbox has answered only what it had answered before and what published commands declare. */
  ghost predicate Accounted(before: CommandOutcome.Ledger, m: Machine) {
    && OutcomeRuns.Once(m.ledger) && OutcomeRuns.Keeps(before, m.ledger)
    && forall key :: key in m.ledger.receipts ==> key in before.receipts || Declared(m.core.files, key)
  }

  lemma OnlyDispatchingAnswers(address: Addressing, m: Machine, act: Act)
    ensures After(address, m, act).ledger == if act.Dispatch? then DispatchOne(m, act.caller, act.weather).ledger
      else m.ledger
  {
    hide CoreAfter, EffectsOf;
  }

  lemma DispatchAccounts(
    address: Addressing, before: CommandOutcome.Ledger, m: Machine, c: Caller, weather: CommandOutcome.Weather)
    requires Inv(address, m.core) && Accounted(before, m)
    ensures Accounted(before, DispatchOne(m, c, weather))
  {
    hide Inv, EffectsOf;
    var n := DispatchOne(m, c, weather);
    if n != m {
      var t, k := m.core.calls[c].answer, m.at[c].boundary.k;
      AnswerIsPublished(address, m, c);
      assert Declared(m.core.files, EffectsOf(t)[k].effect_key);
      forall key | key in n.ledger.receipts ensures key in before.receipts || Declared(n.core.files, key) {
        assert key in m.ledger.receipts || key == EffectsOf(t)[k].effect_key;
      }
    }
  }

  lemma DeclaredStays(files: set<Transaction>, later: set<Transaction>, key: string)
    requires files <= later && Declared(files, key)
    ensures Declared(later, key)
  {
    hide EffectsOf;
    var t, i :| t in files && 0 <= i < |EffectsOf(t)| && EffectsOf(t)[i].effect_key == key;
    assert t in later;
  }

  lemma ActAccounts(address: Addressing, before: CommandOutcome.Ledger, m: Machine, act: Act)
    requires Injective(address) && Sound(address, m) && Accounted(before, m)
    ensures Accounted(before, After(address, m, act))
  {
    hide Injective, CoreAfter, After, DispatchOne, Declared, Inv, Attributed, PlacesOk, OutcomeRuns.Once,
      OutcomeRuns.Keeps;
    var n := After(address, m, act);
    CoreKeeps(address, m, act);
    ActRefines(address, m, act);
    OnlyDispatchingAnswers(address, m, act);
    DispatchAccounts(address, before, m, act.caller, if act.Dispatch? then act.weather else CommandOutcome.Throws);
    DispatchingPublishesNothing(m, act.caller, if act.Dispatch? then act.weather else CommandOutcome.Throws);
    forall key | Declared(m.core.files, key) ensures Declared(n.core.files, key) {
      DeclaredStays(m.core.files, n.core.files, key);
    }
  }

  lemma DispatchingPublishesNothing(m: Machine, c: Caller, weather: CommandOutcome.Weather)
    ensures DispatchOne(m, c, weather).core == m.core
  {
    hide EffectsOf;
  }

  lemma AnswerIsPublished(address: Addressing, m: Machine, c: Caller)
    requires Inv(address, m.core) && c in m.core.calls && m.core.calls[c].Returned?
    ensures m.core.calls[c].answer in m.core.files
  {
    assert CallOk(address, m.core.files, m.core.lock, c, m.core.calls[c]);
  }

  lemma {:induction false} ActingAccounts(
    address: Addressing, before: CommandOutcome.Ledger, m: Machine, acts: seq<Act>)
    requires Injective(address) && Sound(address, m) && Accounted(before, m)
    ensures Accounted(before, Acting(address, m, acts))
    decreases |acts|
  {
    hide Injective, Sound, After, Accounted;
    if acts != [] {
      ActKeeps(address, m, acts[0]);
      ActAccounts(address, before, m, acts[0]);
      ActingAccounts(address, before, After(address, m, acts[0]), acts[1..]);
    }
  }

  /**
   Over every run, whatever crashes where and whoever restarts what: one transaction per idempotency scope,
   no effect carried out twice, none that no published command declares, and no receipt ever changed.
   */
  lemma CrashesAreSafe(address: Addressing, log: seq<Transaction>, ledger: CommandOutcome.Ledger, acts: seq<Act>)
    requires Injective(address) && CommandSafety.GoodLog(address, log) && OutcomeRuns.Once(ledger)
    ensures var m := Reaching(address, log, ledger, acts);
      ScopeUnique(m.core.files) && Accounted(ledger, m)
  {
    hide Injective, Acting, Inv;
    OpeningIsSound(address, log, ledger);
    ActingAccounts(address, ledger, Opening(log, ledger), acts);
    RunRefines(address, Opening(log, ledger), acts);
    CommandSafety.OneTransactionPerScope(address, log, StepsOf(address, Opening(log, ledger), acts));
  }
}
