/** Acknowledgements over unbounded runs: the chain of watermarks, replays, and when a page can take effect twice. */
module ContinuityRuns {
  import opened Wrappers
  import opened ContinuityAck

  // ---------- The writer and the parser ----------

  lemma LastOnesKeepsEnd(pages: seq<PageRef>, p: PageRef)
    ensures var kept := LastOnes(pages + [p]);
            && 0 < |kept| <= MAX_RETAINED && |kept| <= |pages| + 1 && kept[|kept| - 1] == p
            && kept == (pages + [p])[|pages| + 1 - |kept|..]
  {
  }

  lemma KeptPagesDistinct(pages: seq<PageRef>, p: PageRef)
    requires Distinct(pages) && p !in pages
    ensures Distinct(LastOnes(pages + [p]))
  {
    var kept := LastOnes(pages + [p]);
    LastOnesKeepsEnd(pages, p);
    forall i, j | 0 <= i < j < |kept| ensures kept[i] != kept[j] {
      var skip := |pages| + 1 - |kept|;
      assert kept[i] == (pages + [p])[i + skip] && kept[j] == (pages + [p])[j + skip];
    }
  }

  lemma KeptPagesOk(f: Formats, pages: seq<PageRef>, p: PageRef)
    requires PageOk(f, p) && forall i :: 0 <= i < |pages| ==> PageOk(f, pages[i])
    ensures forall i :: 0 <= i < |LastOnes(pages + [p])| ==> PageOk(f, LastOnes(pages + [p])[i])
  {
    LastOnesKeepsEnd(pages, p);
  }

  /** The parser accepts a written state exactly when the counter had room and the clock was well-formed. */
  lemma WriterSatisfiesParserExactly(f: Formats, agent: string, d: Disk, x: Attempt)
    requires Commits(f, agent, d, x)
    ensures DiskReadable(f, agent, AfterAttempt(f, agent, d, x)) <==> CountOf(d) < MAX_COUNT && IsTimestamp(f, x.now)
  {
    hide LastOnes, Distinct, CommittedWatermark;
    var pages, p := Retained(d), RefOf(x.token);
    assert Distinct([]) by { EmptyDistinct(); }
    LastOnesKeepsEnd(pages, p);
    KeptPagesDistinct(pages, p);
    KeptPagesOk(f, pages, p);
  }

  lemma EmptyDistinct()
    ensures Distinct([])
  {
  }

  /** A clock past the year 9999, or before the year 0, makes the state unreadable. */
  lemma SignedClockBreaksState(f: Formats, agent: string, d: Disk, x: Attempt)
    requires Commits(f, agent, d, x) && Signed(x.now)
    ensures !DiskReadable(f, agent, AfterAttempt(f, agent, d, x))
  {
    hide Commits, Signed;
    WriterSatisfiesParserExactly(f, agent, d, x);
    if IsTimestamp(f, x.now) {
      TimestampStartsWithDigit(f, x.now);
    }
  }

  // ---------- A concrete agent ----------

  const NOON := "2026-08-11T12:00:00Z"
  const AFTER_9999 := "+010000-01-01T00:00:00.000Z"

  /** The UUID 00000000-0000-5000-8000-000000000000. */
  function Session(): (s: string)
    ensures IsUuid(s)
  {
    seq(36, i requires 0 <= i < 36 => Plain(UuidMark(i)))
  }

  function Plain(mark: char): char {
    if mark == 'v' then '5' else if mark == 'w' then '8' else if mark == '-' then '-' else '0'
  }

  /** Texts of 64 hexadecimal digits, one for each number up to 180. */
  function Numbered(k: nat): (s: string)
    requires k < 180
    ensures IsSha256(s)
  {
    seq(64, i requires 0 <= i < 64 =>
      if i == 0 then (if k < 60 then '0' else if k < 120 then '1' else '2') else if i <= k % 60 then 'a' else '0')
  }

  lemma NumberedDiffers(j: nat, k: nat)
    requires j < k < 180
    ensures Numbered(j) != Numbered(k)
  {
    var s, t := Numbered(j), Numbered(k);
    if j / 60 == k / 60 {
      assert t[k % 60] == 'a' && s[k % 60] == '0';
    } else {
      assert s[0] != t[0];
    }
  }

  /** Every text parses, and a page is hashed to the digest of its observation. */
  const SIMPLE := Formats(_ => true, (i: Identity) => i.observation)

  /** The page numbered `k`, which leaves the watermark at noon. */
  function NoonPage(k: nat): Token
    requires k < 180
  {
    Token(Numbered(k), Identity("agent", Some(NOON), NOON, Numbered(k), true, true, Session()))
  }

  function NoonAttempt(k: nat, now: string): Attempt
    requires k < 180
  {
    Attempt(NoonPage(k), Works, false, now)
  }

  /** No acknowledgement yet; the older state file says noon. */
  const UNTOUCHED := Disk(None, LegacyFile(Some(NOON)), [])

  lemma NoonIsTimestamp()
    ensures IsTimestamp(SIMPLE, NOON)
  {
    assert NOON[19..] == "Z";
    assert NOON[..19] == "2026-08-11T12:00:00";
  }

  lemma NoonPageIsValid(k: nat)
    requires k < 180
    ensures TokenValid(SIMPLE, NoonPage(k))
  {
    NoonIsTimestamp();
    hide IsTimestamp, IsSha256, IsUuid, Numbered, Session;
  }

  /** The first acknowledgement, on a clock in the year 10000: the state it writes is never read again. */
  lemma YearTenThousand()
    ensures var x := NoonAttempt(0, AFTER_9999);
      Commits(SIMPLE, "agent", UNTOUCHED, x)
        && !DiskReadable(SIMPLE, "agent", AfterAttempt(SIMPLE, "agent", UNTOUCHED, x))
  {
    NoonPageIsValid(0);
    NoonIsTimestamp();
    hide IsTimestamp, TokenValid;
    SignedClockBreaksState(SIMPLE, "agent", UNTOUCHED, NoonAttempt(0, AFTER_9999));
  }

  /** A state file of this agent whose counter is full. */
  const FULL := Disk(
    Some(AckState("agent", Some(NOON), Some(Numbered(0)), MAX_COUNT, [PageRef(Numbered(0), NOON)], NOON)), NoLegacy, [])

  /** It is read, the next page commits, and what is written then is never read again. */
  lemma FullCounter()
    ensures var x := NoonAttempt(1, NOON);
      && DiskReadable(SIMPLE, "agent", FULL) && Commits(SIMPLE, "agent", FULL, x)
      && !DiskReadable(SIMPLE, "agent", AfterAttempt(SIMPLE, "agent", FULL, x))
  {
    NoonPageIsValid(1);
    NoonIsTimestamp();
    NumberedDiffers(0, 1);
    hide IsTimestamp, TokenValid, Numbered;
    WriterSatisfiesParserExactly(SIMPLE, "agent", FULL, NoonAttempt(1, NOON));
  }

  // ---------- Runs ----------

  function Run(f: Formats, agent: string, d: Disk, attempts: seq<Attempt>): Disk {
    if attempts == [] then d
    else AfterAttempt(f, agent, Run(f, agent, d, attempts[..|attempts| - 1]), attempts[|attempts| - 1])
  }

  /** The tokens that took effect, in order. */
  function Effects(f: Formats, agent: string, d: Disk, attempts: seq<Attempt>): seq<Token> {
    if attempts == [] then []
    else
      var front, last := attempts[..|attempts| - 1], attempts[|attempts| - 1];
      if Commits(f, agent, Run(f, agent, d, front), last) then Effects(f, agent, d, front) + [last.token]
      else Effects(f, agent, d, front)
  }

  function Refs(tokens: seq<Token>): (refs: seq<PageRef>)
    ensures |refs| == |tokens|
  {
    seq(|tokens|, i requires 0 <= i < |tokens| => RefOf(tokens[i]))
  }

  /** Once the file cannot be parsed, no attempt changes anything or succeeds. */
  lemma {:induction false} UnreadableForever(f: Formats, agent: string, d: Disk, attempts: seq<Attempt>)
    requires !DiskReadable(f, agent, d)
    ensures Run(f, agent, d, attempts) == d && Effects(f, agent, d, attempts) == []
    ensures forall x :: Answer(f, agent, d, x).Err?
  {
    hide Readable, TokenValid;
    if attempts != [] {
      UnreadableForever(f, agent, d, attempts[..|attempts| - 1]);
    }
  }

  /** Every clock reading is well-formed and the counter cannot run out during the run. */
  predicate Sane(f: Formats, d: Disk, attempts: seq<Attempt>) {
    CountOf(d) + |attempts| <= MAX_COUNT && forall i :: 0 <= i < |attempts| ==> IsTimestamp(f, attempts[i].now)
  }

  lemma LastOnesOfLastOnes(pages: seq<PageRef>, p: PageRef)
    ensures LastOnes(LastOnes(pages) + [p]) == LastOnes(pages + [p])
  {
  }

  lemma StepIsRecorded(f: Formats, agent: string, d: Disk, x: Attempt)
    requires DiskReadable(f, agent, d) && CountOf(d) < MAX_COUNT && IsTimestamp(f, x.now)
    ensures var after := AfterAttempt(f, agent, d, x);
            && DiskReadable(f, agent, after) && after.legacy == d.legacy
            && (Commits(f, agent, d, x) ==>
                 && CountOf(after) == CountOf(d) + 1 && Retained(after) == LastOnes(Retained(d) + [RefOf(x.token)])
                 && CommittedWatermark(f, agent, after) == Ok(Some(x.token.identity.high))
                 && CommittedWatermark(f, agent, d) == Ok(x.token.identity.prior))
            && (!Commits(f, agent, d, x) ==>
                 && CountOf(after) == CountOf(d) && Retained(after) == Retained(d)
                 && CommittedWatermark(f, agent, after) == CommittedWatermark(f, agent, d))
  {
    if Commits(f, agent, d, x) {
      WriterSatisfiesParserExactly(f, agent, d, x);
    }
  }

  ghost predicate Recorded(f: Formats, agent: string, d: Disk, attempts: seq<Attempt>) {
    var after, effects := Run(f, agent, d, attempts), Effects(f, agent, d, attempts);
    && DiskReadable(f, agent, after) && after.legacy == d.legacy
    && CountOf(after) == CountOf(d) + |effects| && |effects| <= |attempts|
    && Retained(after) == LastOnes(Retained(d) + Refs(effects))
    && CommittedWatermark(f, agent, after) ==
       (if effects == [] then CommittedWatermark(f, agent, d) else Ok(Some(effects[|effects| - 1].identity.high)))
  }

  /** Each page that took effect starts where the one before it ended. */
  ghost predicate WatermarkChain(start: Result<Option<string>, AckError>, effects: seq<Token>) {
    && (effects != [] ==> start == Ok(effects[0].identity.prior))
    && forall i :: 0 < i < |effects| ==> effects[i].identity.prior == Some(effects[i - 1].identity.high)
  }

  lemma RetainedFits(f: Formats, agent: string, d: Disk)
    requires DiskReadable(f, agent, d) && |Retained(d)| <= MAX_RETAINED
    ensures Retained(d) == LastOnes(Retained(d) + Refs([]))
  {
    assert Retained(d) + Refs([]) == Retained(d);
  }

  lemma {:induction false} RunIsRecorded(f: Formats, agent: string, d: Disk, attempts: seq<Attempt>)
    requires DiskReadable(f, agent, d) && |Retained(d)| <= MAX_RETAINED && Sane(f, d, attempts)
    ensures Recorded(f, agent, d, attempts)
    ensures WatermarkChain(CommittedWatermark(f, agent, d), Effects(f, agent, d, attempts))
  {
    hide DiskReadable, CommittedWatermark, Commits, AfterAttempt, LastOnes, Retained, CountOf;
    if attempts == [] {
      RetainedFits(f, agent, d);
    } else {
      var front, last := attempts[..|attempts| - 1], attempts[|attempts| - 1];
      RunIsRecorded(f, agent, d, front);
      var before, effects := Run(f, agent, d, front), Effects(f, agent, d, front);
      StepIsRecorded(f, agent, before, last);
      if Commits(f, agent, before, last) {
        LastOnesOfLastOnes(Retained(d) + Refs(effects), RefOf(last.token));
        assert Retained(d) + Refs(effects) + [RefOf(last.token)] == Retained(d) + Refs(effects + [last.token]);
      }
    }
  }

  // ---------- Whose pages take effect ----------

  /** Over any run on any disk: what took effect was attempted, and was a valid, complete page of this very agent. */
  lemma {:induction false} EffectsAreOwn(f: Formats, agent: string, d: Disk, attempts: seq<Attempt>, t: Token)
    requires t in Effects(f, agent, d, attempts)
    ensures Own(f, agent, t) && exists i :: 0 <= i < |attempts| && attempts[i].token == t
  {
    hide TokenValid, DiskReadable, CommittedWatermark, AfterAttempt;
    var k := |attempts| - 1;
    if t in Effects(f, agent, d, attempts[..k]) {
      EffectsAreOwn(f, agent, d, attempts[..k], t);
      var i :| 0 <= i < k && attempts[..k][i].token == t;
      assert attempts[i].token == t;
    } else {
      assert attempts[k].token == t;
    }
  }

  /** What was written once is read as this agent's and no other's: an agent's pages never move another's watermark. */
  lemma OthersNeverCommit(f: Formats, agent: string, d: Disk, attempts: seq<Attempt>)
    requires forall i :: 0 <= i < |attempts| ==> attempts[i].token.identity.agent_id != agent
    ensures Run(f, agent, d, attempts) == d && Effects(f, agent, d, attempts) == []
  {
    hide TokenValid, DiskReadable, CommittedWatermark, NewState;
    if attempts != [] {
      OthersNeverCommit(f, agent, d, attempts[..|attempts| - 1]);
    }
  }

  /** A valid page of "agent", acknowledged by another agent. */
  lemma WrongAgentIsRefused()
    ensures var x := NoonAttempt(0, NOON);
      && Answer(SIMPLE, "agent", UNTOUCHED, x).Ok?
      && Answer(SIMPLE, "other", UNTOUCHED, x) == Err(WrongAgent)
      && AfterAttempt(SIMPLE, "other", UNTOUCHED, x) == UNTOUCHED
  {
    NoonPageIsValid(0);
    NoonIsTimestamp();
    hide IsTimestamp, TokenValid;
  }

  // ---------- Replays ----------

  /** A token still in the retained history is acknowledged again without presence and without a write. */
  lemma RetainedTokenReplays(f: Formats, agent: string, d: Disk, attempts: seq<Attempt>, x: Attempt, i: nat)
    requires DiskReadable(f, agent, d) && |Retained(d)| <= MAX_RETAINED && Sane(f, d, attempts)
    requires i < |Effects(f, agent, d, attempts)| && |Effects(f, agent, d, attempts)| - i <= MAX_RETAINED
    requires x.token == Effects(f, agent, d, attempts)[i]
    ensures var after := Run(f, agent, d, attempts);
            && AfterAttempt(f, agent, after, x) == after
            && after.state.Some?
            && Answer(f, agent, after, x) == Ok(Acknowledged(RefOf(x.token), true, false, after.state.value))
  {
    hide Readable, CommittedWatermark, TokenValid, Run, Effects;
    RunIsRecorded(f, agent, d, attempts);
    EffectsAreOwn(f, agent, d, attempts, x.token);
    var effects := Effects(f, agent, d, attempts);
    var pages := Retained(d) + Refs(effects);
    assert pages[|Retained(d)| + i] == RefOf(x.token);
    InLastOnes(pages, |Retained(d)| + i);
  }

  lemma InLastOnes(pages: seq<PageRef>, i: nat)
    requires i < |pages| && |pages| - i <= MAX_RETAINED
    ensures pages[i] in LastOnes(pages)
  {
    if |pages| > MAX_RETAINED {
      assert LastOnes(pages)[i - (|pages| - MAX_RETAINED)] == pages[i];
    }
  }

  // ---------- At most once ----------

  /** The instant a watermark stands for; the empty start comes before every instant. */
  type Rank = Option<string> -> int

  ghost predicate Advancing(rank: Rank, tokens: seq<Token>) {
    forall i :: 0 <= i < |tokens| ==> rank(tokens[i].identity.prior) < rank(Some(tokens[i].identity.high))
  }

  lemma {:induction false} ChainClimbs(
    rank: Rank, start: Result<Option<string>, AckError>, effects: seq<Token>, i: nat, j: nat)
    requires WatermarkChain(start, effects) && Advancing(rank, effects) && i < j < |effects|
    ensures rank(Some(effects[i].identity.high)) < rank(Some(effects[j].identity.high))
    decreases j
  {
    if i < j - 1 {
      ChainClimbs(rank, start, effects, i, j - 1);
    }
  }

  /**
   If every page that took effect moved the watermark strictly forward, no token took effect twice: over
   runs of any length, evicted from the retained history or not.
   */
  lemma AtMostOnce(f: Formats, agent: string, d: Disk, attempts: seq<Attempt>, rank: Rank)
    requires DiskReadable(f, agent, d) && |Retained(d)| <= MAX_RETAINED && Sane(f, d, attempts)
    requires Advancing(rank, Effects(f, agent, d, attempts))
    ensures var effects := Effects(f, agent, d, attempts);
      forall i, j :: 0 <= i < j < |effects| ==> effects[i] != effects[j]
  {
    hide Readable, Run, Effects;
    RunIsRecorded(f, agent, d, attempts);
    var effects := Effects(f, agent, d, attempts);
    forall i, j | 0 <= i < j < |effects| ensures effects[i] != effects[j] {
      ChainClimbs(rank, CommittedWatermark(f, agent, d), effects, i, j);
    }
  }

  /** The page took effect as number `i` of the run, and not again since. */
  predicate LastTookEffect(effects: seq<Token>, page: PageRef, i: nat) {
    i < |effects| && RefOf(effects[i]) == page && forall j :: i < j < |effects| ==> RefOf(effects[j]) != page
  }

  lemma RetainedExactly(start: seq<PageRef>, effects: seq<Token>, page: PageRef, i: nat)
    requires LastTookEffect(effects, page, i)
    ensures page in LastOnes(start + Refs(effects)) <==> |effects| - i <= MAX_RETAINED
  {
    var pages := start + Refs(effects);
    assert pages[|start| + i] == page;
    if |effects| - i <= MAX_RETAINED {
      InLastOnes(pages, |start| + i);
    } else {
      var kept := LastOnes(pages);
      var skip := |pages| - MAX_RETAINED;
      forall n | 0 <= n < |kept| ensures kept[n] != page {
        assert kept[n] == Refs(effects)[n + skip - |start|];
      }
    }
  }

  /**
   Over any run: a page that last took effect k pages ago takes effect again if and only if k exceeds the
   128 retained and the watermark committed by now is the one the page starts from.
   */
  lemma TakesEffectAgainExactly(f: Formats, agent: string, d: Disk, attempts: seq<Attempt>, x: Attempt, i: nat)
    requires DiskReadable(f, agent, d) && |Retained(d)| <= MAX_RETAINED && Sane(f, d, attempts)
    requires LastTookEffect(Effects(f, agent, d, attempts), RefOf(x.token), i)
    requires x.transport.Works? && !x.dies && TokenValid(f, x.token) && x.token.identity.agent_id == agent
    requires x.token.identity.complete && x.token.identity.acknowledgeable
    ensures var effects := Effects(f, agent, d, attempts);
      Commits(f, agent, Run(f, agent, d, attempts), x) <==>
        |effects| - i > MAX_RETAINED && x.token.identity.prior == Some(effects[|effects| - 1].identity.high)
  {
    hide Readable, CommittedWatermark, TokenValid, Run, Effects, LastOnes, LastTookEffect;
    RunIsRecorded(f, agent, d, attempts);
    var effects := Effects(f, agent, d, attempts);
    assert effects != [] by {
      HasEffects(effects, RefOf(x.token), i);
    }
    RetainedExactly(Retained(d), effects, RefOf(x.token), i);
    TakesEffectExactly(f, agent, Run(f, agent, d, attempts), x);
  }

  lemma HasEffects(effects: seq<Token>, page: PageRef, i: nat)
    requires LastTookEffect(effects, page, i)
    ensures effects != []
  {
  }

  /**
   What an acknowledgement remembers is only the retained pages and the watermark: nothing else stops a
   second effect.
   */
  lemma TakesEffectExactly(f: Formats, agent: string, d: Disk, x: Attempt)
    requires DiskReadable(f, agent, d) && x.transport.Works? && !x.dies
    requires TokenValid(f, x.token) && x.token.identity.agent_id == agent
    requires x.token.identity.complete && x.token.identity.acknowledgeable
    ensures Commits(f, agent, d, x) <==>
      RefOf(x.token) !in Retained(d) && CommittedWatermark(f, agent, d) == Ok(x.token.identity.prior)
  {
  }

  /** A page that ends where it starts. */
  predicate Sideways(f: Formats, agent: string, w: string, x: Attempt) {
    var i := x.token.identity;
    && TokenValid(f, x.token) && i.agent_id == agent && i.complete && i.acknowledgeable
    && i.prior == Some(w) && i.high == w
    && x.transport.Works? && !x.dies
  }

  predicate AllNew(d: Disk, attempts: seq<Attempt>) {
    && (forall i :: 0 <= i < |attempts| ==> RefOf(attempts[i].token) !in Retained(d))
    && (forall i, j :: 0 <= i < j < |attempts| ==> RefOf(attempts[i].token) != RefOf(attempts[j].token))
  }

  function Tokens(attempts: seq<Attempt>): (tokens: seq<Token>)
    ensures |tokens| == |attempts|
  {
    seq(|attempts|, i requires 0 <= i < |attempts| => attempts[i].token)
  }

  lemma NotInLastOnes(d: Disk, attempts: seq<Attempt>, k: nat)
    requires AllNew(d, attempts) && k < |attempts|
    ensures RefOf(attempts[k].token) !in LastOnes(Retained(d) + Refs(Tokens(attempts[..k])))
  {
  }

  lemma {:induction false} SidewaysAllTakeEffect(f: Formats, agent: string, d: Disk, w: string, attempts: seq<Attempt>)
    requires DiskReadable(f, agent, d) && |Retained(d)| <= MAX_RETAINED && Sane(f, d, attempts)
    requires CommittedWatermark(f, agent, d) == Ok(Some(w)) && AllNew(d, attempts)
    requires forall i :: 0 <= i < |attempts| ==> Sideways(f, agent, w, attempts[i])
    ensures Effects(f, agent, d, attempts) == Tokens(attempts)
  {
    hide DiskReadable, CommittedWatermark, Retained, LastOnes, AfterAttempt;
    if attempts != [] {
      var k := |attempts| - 1;
      var front, last := attempts[..k], attempts[k];
      SidewaysAllTakeEffect(f, agent, d, w, front);
      RunIsRecorded(f, agent, d, front);
      NotInLastOnes(d, attempts, k);
      var before := Run(f, agent, d, front);
      assert RefOf(last.token) !in Retained(before);
      TakesEffectExactly(f, agent, before, last);
      assert Tokens(attempts) == Tokens(front) + [last.token];
    }
  }

  /**
   Without strict advance the bound on the history shows: after more than 128 pages that leave the
   watermark where it was, the first of them is evicted and takes effect a second time.
   */
  lemma EvictedPageTakesEffectAgain(f: Formats, agent: string, d: Disk, w: string, attempts: seq<Attempt>)
    requires DiskReadable(f, agent, d) && |Retained(d)| <= MAX_RETAINED && Sane(f, d, attempts)
    requires CommittedWatermark(f, agent, d) == Ok(Some(w)) && AllNew(d, attempts)
    requires forall i :: 0 <= i < |attempts| ==> Sideways(f, agent, w, attempts[i])
    requires |attempts| > MAX_RETAINED
    ensures Effects(f, agent, d, attempts + [attempts[0]]) == Tokens(attempts) + [attempts[0].token]
  {
    hide DiskReadable, CommittedWatermark, Retained, LastOnes, AfterAttempt, Recorded;
    var again := attempts + [attempts[0]];
    assert again[..|attempts|] == attempts;
    SidewaysAllTakeEffect(f, agent, d, w, attempts);
    FirstIsEvicted(f, agent, d, w, attempts);
    assert Sideways(f, agent, w, attempts[0]);
    TakesEffectExactly(f, agent, Run(f, agent, d, attempts), attempts[0]);
  }

  lemma FirstIsEvicted(f: Formats, agent: string, d: Disk, w: string, attempts: seq<Attempt>)
    requires DiskReadable(f, agent, d) && |Retained(d)| <= MAX_RETAINED && Sane(f, d, attempts) && AllNew(d, attempts)
    requires Effects(f, agent, d, attempts) == Tokens(attempts)
    requires forall i :: 0 <= i < |attempts| ==> Sideways(f, agent, w, attempts[i])
    requires |attempts| > MAX_RETAINED
    ensures var after := Run(f, agent, d, attempts);
      DiskReadable(f, agent, after) && CommittedWatermark(f, agent, after) == Ok(Some(w))
      && RefOf(attempts[0].token) !in Retained(after)
  {
    assert Tokens(attempts)[|attempts| - 1].identity.high == w by {
      assert Sideways(f, agent, w, attempts[|attempts| - 1]);
    }
    hide DiskReadable, CommittedWatermark, Retained, Run, Effects, Sane, Sideways, LastOnes;
    RunIsRecorded(f, agent, d, attempts);
    FirstIsNotRetained(d, attempts);
  }

  lemma FirstIsNotRetained(d: Disk, attempts: seq<Attempt>)
    requires AllNew(d, attempts) && |attempts| > MAX_RETAINED
    ensures RefOf(attempts[0].token) !in LastOnes(Retained(d) + Refs(Tokens(attempts)))
  {
    hide Retained;
    var refs, page := Refs(Tokens(attempts)), RefOf(attempts[0].token);
    assert LastTookEffect(Tokens(attempts), page, 0);
    RetainedExactly(Retained(d), Tokens(attempts), page, 0);
  }

  /** The attempts at the first `n` noon pages. */
  function NoonAttempts(n: nat): (attempts: seq<Attempt>)
    requires n <= 180
    ensures |attempts| == n
  {
    seq(n, k requires 0 <= k < n => NoonAttempt(k, NOON))
  }

  /** 129 pages that leave the watermark at noon, and the first of them once more: it takes effect twice. */
  lemma OneHundredAndThirtieth()
    ensures var attempts := NoonAttempts(129);
            var effects := Effects(SIMPLE, "agent", UNTOUCHED, attempts + [attempts[0]]);
            |effects| == 130 && effects[129] == effects[0]
  {
    var attempts := NoonAttempts(129);
    NoonIsTimestamp();
    forall k | 0 <= k < 129 ensures Sideways(SIMPLE, "agent", NOON, attempts[k]) {
      NoonPageIsValid(k);
    }
    forall i, j | 0 <= i < j < 129 ensures RefOf(attempts[i].token) != RefOf(attempts[j].token) {
      NumberedDiffers(i, j);
    }
    hide IsTimestamp, Sideways, Effects;
    EvictedPageTakesEffectAgain(SIMPLE, "agent", UNTOUCHED, NOON, attempts);
    assert Tokens(attempts)[0] == attempts[0].token;
  }

  // ---------- Presence ----------

  /** How many attempts died between the presence effect and the write. */
  function Lost(f: Formats, agent: string, d: Disk, attempts: seq<Attempt>): nat {
    if attempts == [] then 0
    else
      var front, last := attempts[..|attempts| - 1], attempts[|attempts| - 1];
      var before := Run(f, agent, d, front);
      Lost(f, agent, d, front)
      + (if last.dies && last.transport.Works? && Refused(f, agent, before, last).None?
        && RefOf(last.token) !in Retained(before)
         then 1 else 0)
  }

  function PresenceFor(t: Token): Presence {
    Presence(t.identity.session, t.identity.high)
  }

  /**
   Presence is called once for every page that took effect and once more for every death between call
   and write: replays, refusals and failed transports never call it.
   */
  lemma {:induction false} PresenceIsAccountedFor(f: Formats, agent: string, d: Disk, attempts: seq<Attempt>)
    ensures var after, effects := Run(f, agent, d, attempts), Effects(f, agent, d, attempts);
            && |after.presence| == |d.presence| + |effects| + Lost(f, agent, d, attempts)
            && (forall i :: 0 <= i < |effects| ==> PresenceFor(effects[i]) in after.presence)
  {
    hide Refused, NewState;
    if attempts != [] {
      PresenceIsAccountedFor(f, agent, d, attempts[..|attempts| - 1]);
    }
  }

  // ---------- Two readings of the watermark ----------

  /**
   The watermark a page is cut from and the one its acknowledgement compares with differ exactly when the
   state file holds no watermark while the older file does.
   */
  lemma WatermarksAgreeExactly(f: Formats, agent: string, d: Disk)
    requires DiskReadable(f, agent, d)
    ensures EffectiveWatermark(f, agent, d) == CommittedWatermark(f, agent, d) <==>
      d.state.None? || d.state.value.last_seen.Some? || LegacyWatermark(f, d.legacy) == Ok(None)
  {
  }

  /** No acknowledgement ever writes such a state file: started without one, the two always agree. */
  lemma {:induction false} WatermarksAlwaysAgree(f: Formats, agent: string, d: Disk, attempts: seq<Attempt>)
    requires d.state.None?
    ensures EffectiveWatermark(f, agent, Run(f, agent, d, attempts)) ==
      CommittedWatermark(f, agent, Run(f, agent, d, attempts))
    ensures Run(f, agent, d, attempts).state.Some? ==> Run(f, agent, d, attempts).state.value.last_seen.Some?
  {
    hide Refused, Readable, LegacyWatermark;
    if attempts != [] {
      WatermarksAlwaysAgree(f, agent, d, attempts[..|attempts| - 1]);
    }
  }
}
