/**
 Acknowledging a continuity page: a compare-and-swap on a watermark, with a presence effect before the
 write, a bounded history for replays, and a strict parser that every written state must pass.
 */
module ContinuityAck {
  import opened Wrappers
  import opened ProjectTypes
  import Texts

  const MAX_RETAINED := 128
  /** Number.MAX_SAFE_INTEGER */
  const MAX_COUNT: int := 0x1F_FFFF_FFFF_FFFF

  datatype PageRef = PageRef(page_id: Digest, high: string)

  datatype AckState = AckState(
    agent_id: string, last_seen: Option<string>, last_page: Option<Digest>,
    ack_count: int, pages: seq<PageRef>, updated_at: string)

  datatype Identity = Identity(
    agent_id: string, prior: Option<string>, high: string, observation: Digest,
    complete: bool, acknowledgeable: bool, session: string)

  datatype Token = Token(page_id: Digest, identity: Identity)

  /** What is not looked into: which texts the platform can parse as a date, and the hash of a page's identity. */
  datatype Formats = Formats(parses: string -> bool, page: Identity -> Digest)

  datatype Legacy = NoLegacy | BadLegacy | LegacyFile(last_seen: Option<string>)

  datatype Presence = Presence(session: string, observed_at: string)

  datatype Disk = Disk(state: Option<AckState>, legacy: Legacy, presence: seq<Presence>)

  datatype Transport = Absent | Throws | Works

  /** `dies` stops the process after the presence effect and before the write. */
  datatype Attempt = Attempt(token: Token, transport: Transport, dies: bool, now: string)

  datatype AckError = InvalidToken | WrongAgent | IncompletePage | WatermarkConflict | StateInvalid | PresenceFailed
    | Died

  datatype Acknowledged = Acknowledged(page: PageRef, idempotent: bool, presence_committed: bool, state: AckState)

  // ---------- Formats ----------

  predicate LowerHex(c: char) {
    '0' <= c <= '9' || 'a' <= c <= 'f'
  }

  predicate AnyHex(c: char) {
    LowerHex(c) || 'A' <= c <= 'F'
  }

  /** A character of a pattern: `d` a digit, `h` and `x` hexadecimal, `v` and `w` the marks of a UUID, else itself. */
  predicate Fits(c: char, mark: char) {
    match mark
    case 'd' => '0' <= c <= '9'
    case 'h' => LowerHex(c)
    case 'x' => AnyHex(c)
    case 'v' => '1' <= c <= '8'
    case 'w' => c in {'8', '9', 'a', 'b', 'A', 'B'}
    case _ => c == mark
  }

  predicate Spells(s: string, pattern: string) {
    |s| == |pattern| && forall i :: 0 <= i < |s| ==> Fits(s[i], pattern[i])
  }

  predicate IsSha256(s: string) {
    |s| == 64 && forall i :: 0 <= i < |s| ==> LowerHex(s[i])
  }

  /** Of a UUID: groups of 8, 4, 4, 4 and 12 digits, with a version and a variant mark. */
  function UuidMark(i: nat): char {
    if i in {8, 13, 18, 23} then '-' else if i == 14 then 'v' else if i == 19 then 'w' else 'x'
  }

  predicate IsUuid(s: string) {
    |s| == 36 && forall i :: 0 <= i < 36 ==> Fits(s[i], UuidMark(i))
  }

  predicate IsZone(s: string) {
    s == "Z" || (|s| == 6 && (s[0] == '+' || s[0] == '-') && Spells(s[1..], "dd:dd"))
  }

  /** Some digits after a point. */
  predicate IsFraction(s: string) {
    |s| >= 2 && s[0] == '.' && forall i :: 1 <= i < |s| ==> Fits(s[i], 'd')
  }

  /** A date and time with a four-digit year, perhaps a fraction of a second, and a zone. */
  predicate IsoShape(s: string) {
    && |s| >= 20 && Spells(s[..19], "dddd-dd-ddTdd:dd:dd")
    && (IsZone(s[19..]) || exists k :: 19 <= k <= |s| && IsFraction(s[19..k]) && IsZone(s[k..]))
  }

  predicate IsTimestamp(f: Formats, s: string) {
    IsoShape(s) && f.parses(s)
  }

  /** How the platform prints an instant of a year past 9999, or before the year 0: with a sign. */
  predicate Signed(s: string) {
    s != "" && (s[0] == '+' || s[0] == '-')
  }

  lemma TimestampStartsWithDigit(f: Formats, s: string)
    requires IsTimestamp(f, s)
    ensures s != "" && '0' <= s[0] <= '9' && !Signed(s)
  {
    assert Fits(s[..19][0], "dddd-dd-ddTdd:dd:dd"[0]);
  }

  // ---------- Pages and tokens ----------

  predicate WatermarkOk(f: Formats, w: Option<string>) {
    w.Some? && w.value != "" ==> IsTimestamp(f, w.value)
  }

  predicate TokenValid(f: Formats, t: Token) {
    && IsSha256(t.page_id) && t.identity.agent_id != "" && IsSha256(t.identity.observation)
      && IsUuid(t.identity.session)
    && IsTimestamp(f, t.identity.high) && WatermarkOk(f, t.identity.prior)
    && f.page(t.identity) == t.page_id
  }

  /** A page, and the token it offers when it may be acknowledged; none when it cannot be built. */
  function CreatePage(f: Formats, i: Identity): Option<Token> {
    if !IsTimestamp(f, i.high) || !WatermarkOk(f, i.prior) then None
    else
      var identity := i.(acknowledgeable := i.acknowledgeable && i.complete);
      if identity.acknowledgeable then Some(Token(f.page(identity), identity)) else None
  }

  /**
   A page offers a token exactly when it is complete, acknowledgeable and well-timed, and then the token is
   accepted.
   */
  lemma CreatedTokenIsAccepted(f: Formats, i: Identity)
    requires forall j :: IsSha256(f.page(j))
    ensures CreatePage(f, i).Some? <==>
      IsTimestamp(f, i.high) && WatermarkOk(f, i.prior) && i.complete && i.acknowledgeable
    ensures CreatePage(f, i).Some? ==>
      && CreatePage(f, i).value.identity == i
      && (TokenValid(f, CreatePage(f, i).value) <==> i.agent_id != "" && IsSha256(i.observation) && IsUuid(i.session))
  {
    if CreatePage(f, i).Some? {
      assert i.(acknowledgeable := i.acknowledgeable && i.complete) == i;
    }
  }

  // ---------- The text of a token ----------

  /** Canonical JSON in base64url and back, and SHA-256 in hexadecimal, uninterpreted. */
  datatype Encoding = Encoding(encode: Token -> string, decode: string -> Option<Token>, checksum: string -> string)

  /** What is assumed: the alphabets hold no full stop, and what was encoded decodes to itself. */
  ghost predicate Faithful(e: Encoding) {
    && (forall t :: e.encode(t) != "" && '.' !in e.encode(t) && e.decode(e.encode(t)) == Some(t))
    && (forall s :: IsSha256(e.checksum(s)))
  }

  function TextOf(e: Encoding, t: Token): string {
    e.encode(t) + "." + e.checksum(e.encode(t))
  }

  function DecodeText(f: Formats, e: Encoding, text: string): Option<Token> {
    var parts := Texts.Split(text, '.');
    if |parts| < 2 || parts[0] == "" || parts[1] == "" || (|parts| > 2 && parts[2] != "") then None
    else if e.checksum(parts[0]) != parts[1] then None
    else
      var t := e.decode(parts[0]);
      if t.Some? && TokenValid(f, t.value) then t else None
  }

  /** What may stand behind the encoded payload: its checksum, and after one more full stop nothing up to the next. */
  predicate Seals(sum: string, rest: string) {
    rest == sum || rest == sum + "." || sum + ".." <= rest
  }

  lemma ChecksumIsAPart(e: Encoding, s: string)
    requires Faithful(e)
    ensures e.checksum(s) != "" && '.' !in e.checksum(s)
  {
    assert IsSha256(e.checksum(s));
  }

  /** A text is its first part, or that part, a full stop, and the rest. */
  lemma {:induction false} RestOfParts(text: string) returns (rest: string)
    ensures var parts := Texts.Split(text, '.');
      && (|parts| == 1 ==> text == parts[0])
      && (|parts| > 1 ==> text == parts[0] + "." + rest && Texts.Split(rest, '.') == parts[1..])
  {
    rest := "";
    if text != "" {
      if text[0] == '.' {
        rest := text[1..];
      } else {
        rest := RestOfParts(text[1..]);
        assert text == [text[0]] + text[1..];
      }
    }
  }

  lemma SealedParts(sum: string, rest: string)
    requires '.' !in sum && Seals(sum, rest)
    ensures var parts := Texts.Split(rest, '.'); parts[0] == sum && (|parts| > 1 ==> parts[1] == "")
  {
    Texts.SplitOfPart(sum, "", '.');
    Texts.SplitOfPart("", "", '.');
    if rest == sum + "." {
      assert rest == sum + ['.'] + "";
    } else if rest != sum {
      var tail := rest[|sum| + 2..];
      Texts.SplitOfPart("", tail, '.');
      Texts.SplitOfPart(sum, "" + ['.'] + tail, '.');
      assert rest == sum + ['.'] + ("" + ['.'] + tail);
    }
  }

  lemma PartsAreSealed(sum: string, rest: string)
    requires var parts := Texts.Split(rest, '.'); parts[0] == sum && (|parts| > 1 ==> parts[1] == "")
    ensures Seals(sum, rest)
  {
    hide Texts.Split;
    var tail := RestOfParts(rest);
    if |Texts.Split(rest, '.')| > 1 {
      var end := RestOfParts(tail);
      if |Texts.Split(tail, '.')| == 1 {
        assert tail == "" && rest == sum + ".";
      } else {
        assert tail == "." + end && rest == sum + ".." + end;
      }
    }
  }

  /** The parts behind the payload are the checksum and no third part exactly if they seal the text. */
  lemma SealedExactly(sum: string, rest: string)
    requires '.' !in sum
    ensures var parts := Texts.Split(rest, '.'); Seals(sum, rest) <==>
      parts[0] == sum && (|parts| > 1 ==> parts[1] == "")
  {
    hide Texts.Split, Seals;
    var parts := Texts.Split(rest, '.');
    if Seals(sum, rest) {
      SealedParts(sum, rest);
    }
    if parts[0] == sum && (|parts| > 1 ==> parts[1] == "") {
      PartsAreSealed(sum, rest);
    }
  }

  /**
   A text is decoded exactly if its payload is that of a valid token and what follows seals it. No changed
   checksum does; but what stands behind an empty third part is not looked at.
   */
  lemma DecodedExactly(f: Formats, e: Encoding, payload: string, rest: string)
    requires Faithful(e) && payload != "" && '.' !in payload
    ensures DecodeText(f, e, payload + "." + rest) ==
      if Seals(e.checksum(payload), rest) && e.decode(payload).Some? && TokenValid(f, e.decode(payload).value)
      then e.decode(payload) else None
  {
    hide TokenValid, Seals;
    ChecksumIsAPart(e, payload);
    hide Faithful;
    assert payload + "." + rest == payload + ['.'] + rest;
    Texts.SplitOfPart(payload, rest, '.');
    SealedExactly(e.checksum(payload), rest);
  }

  /** A changed payload or checksum is refused: the text holds only with the checksum of the payload it carries. */
  lemma ChangedTextIsRefused(f: Formats, e: Encoding, payload: string, sum: string)
    requires Faithful(e) && payload != "" && '.' !in payload && '.' !in sum && sum != e.checksum(payload)
    ensures DecodeText(f, e, payload + "." + sum) == None
  {
    hide TokenValid, Seals;
    ChecksumIsAPart(e, payload);
    hide Faithful;
    DecodedExactly(f, e, payload, sum);
    SealedExactly(e.checksum(payload), sum);
    Texts.SplitOfPart(sum, "", '.');
  }

  /**
   A page that offers a token offers a text that is decoded to just that token, if its identifiers are
   well-formed.
   */
  lemma OfferedTextIsDecoded(f: Formats, e: Encoding, i: Identity)
    requires Faithful(e) && (forall j :: IsSha256(f.page(j))) && CreatePage(f, i).Some?
    ensures DecodeText(f, e, TextOf(e, CreatePage(f, i).value)) ==
      if i.agent_id != "" && IsSha256(i.observation) && IsUuid(i.session) then CreatePage(f, i) else None
  {
    hide TokenValid, CreatePage, IsSha256, IsUuid;
    var t := CreatePage(f, i).value;
    CreatedTokenIsAccepted(f, i);
    DecodedExactly(f, e, e.encode(t), e.checksum(e.encode(t)));
  }

  /** One more full stop, and after another one anything at all, leaves a token's text good for its page. */
  lemma TextIsNotUnique(f: Formats, e: Encoding, t: Token, more: string)
    requires Faithful(e) && TokenValid(f, t)
    ensures DecodeText(f, e, TextOf(e, t) + ".") == Some(t) && DecodeText(f, e, TextOf(e, t) + ".." + more) == Some(t)
  {
    hide TokenValid;
    var payload := e.encode(t);
    var sum := e.checksum(payload);
    DecodedExactly(f, e, payload, sum + ".");
    DecodedExactly(f, e, payload, sum + ".." + more);
    assert TextOf(e, t) + "." == payload + "." + (sum + ".");
    assert TextOf(e, t) + ".." + more == payload + "." + (sum + ".." + more);
  }

  // ---------- The state file ----------

  predicate Distinct(pages: seq<PageRef>) {
    forall i, j :: 0 <= i < j < |pages| ==> pages[i] != pages[j]
  }

  predicate PageOk(f: Formats, p: PageRef) {
    IsSha256(p.page_id) && IsTimestamp(f, p.high)
  }

  predicate Truthy(s: Option<string>) {
    s.Some? && s.value != ""
  }

  /** What the parser accepts as `agent`'s state. */
  predicate Readable(f: Formats, agent: string, s: AckState) {
    && s.agent_id == agent && agent != ""
    && 0 <= s.ack_count <= MAX_COUNT
    && (s.last_page.Some? ==> IsSha256(s.last_page.value))
    && |s.pages| <= s.ack_count
    && (s.ack_count == 0 ==> s.pages == [] && !Truthy(s.last_seen) && !Truthy(s.last_page))
    && (s.ack_count > 0 ==> s.pages != [] && LastIsCommitted(s))
    && Distinct(s.pages)
    && WatermarkOk(f, s.last_seen)
    && IsTimestamp(f, s.updated_at)
    && (forall i :: 0 <= i < |s.pages| ==> PageOk(f, s.pages[i]))
  }

  predicate LastIsCommitted(s: AckState)
    requires s.pages != []
  {
    var last := s.pages[|s.pages| - 1];
    s.last_page == Some(last.page_id) && s.last_seen == Some(last.high)
  }

  predicate DiskReadable(f: Formats, agent: string, d: Disk) {
    d.state.Some? ==> Readable(f, agent, d.state.value)
  }

  function LegacyWatermark(f: Formats, l: Legacy): Result<Option<string>, AckError> {
    match l
    case NoLegacy => Ok(None)
    case BadLegacy => Err(StateInvalid)
    case LegacyFile(seen) => if WatermarkOk(f, seen) then Ok(seen) else Err(StateInvalid)
  }

  /** The watermark a new page starts from. */
  function EffectiveWatermark(f: Formats, agent: string, d: Disk): Result<Option<string>, AckError> {
    if !DiskReadable(f, agent, d) then Err(StateInvalid)
    else if d.state.Some? then Ok(d.state.value.last_seen)
    else LegacyWatermark(f, d.legacy)
  }

  /** The watermark an acknowledgement compares with. */
  function CommittedWatermark(f: Formats, agent: string, d: Disk): Result<Option<string>, AckError> {
    if !DiskReadable(f, agent, d) then Err(StateInvalid)
    else if d.state.Some? && d.state.value.last_seen.Some? then Ok(d.state.value.last_seen)
    else LegacyWatermark(f, d.legacy)
  }

  // ---------- Acknowledging ----------

  function RefOf(t: Token): PageRef {
    PageRef(t.page_id, t.identity.high)
  }

  function Retained(d: Disk): seq<PageRef> {
    if d.state.Some? then d.state.value.pages else []
  }

  function CountOf(d: Disk): int {
    if d.state.Some? then d.state.value.ack_count else 0
  }

  function LastOnes(pages: seq<PageRef>): seq<PageRef> {
    if |pages| <= MAX_RETAINED then pages else pages[|pages| - MAX_RETAINED..]
  }

  function NewState(agent: string, d: Disk, x: Attempt): AckState {
    AckState(agent, Some(x.token.identity.high), Some(x.token.page_id), CountOf(d) + 1,
      LastOnes(Retained(d) + [RefOf(x.token)]), x.now)
  }

  /** Why an attempt is refused before any effect, if it is. */
  function Refused(f: Formats, agent: string, d: Disk, x: Attempt): Option<AckError> {
    if !TokenValid(f, x.token) then Some(InvalidToken)
    else if x.token.identity.agent_id != agent then Some(WrongAgent)
    else if !x.token.identity.complete || !x.token.identity.acknowledgeable then Some(IncompletePage)
    else if !DiskReadable(f, agent, d) then Some(StateInvalid)
    else if RefOf(x.token) in Retained(d) then None
    else
      var current := CommittedWatermark(f, agent, d);
      if current.Err? then Some(current.error)
      else if current.value != x.token.identity.prior then Some(WatermarkConflict)
      else if x.transport.Absent? then Some(StateInvalid)
      else None
  }

  predicate Commits(f: Formats, agent: string, d: Disk, x: Attempt) {
    Refused(f, agent, d, x).None? && RefOf(x.token) !in Retained(d) && x.transport.Works? && !x.dies
  }

  function AfterAttempt(f: Formats, agent: string, d: Disk, x: Attempt): Disk {
    if Refused(f, agent, d, x).Some? || RefOf(x.token) in Retained(d) || !x.transport.Works? then d
    else
      var told := d.(presence := d.presence + [Presence(x.token.identity.session, x.token.identity.high)]);
      if x.dies then told else told.(state := Some(NewState(agent, d, x)))
  }

  function Answer(f: Formats, agent: string, d: Disk, x: Attempt): Result<Acknowledged, AckError> {
    var refused := Refused(f, agent, d, x);
    if refused.Some? then Err(refused.value)
    else if d.state.Some? && RefOf(x.token) in d.state.value.pages
    then Ok(Acknowledged(RefOf(x.token), true, false, d.state.value))
    else if !x.transport.Works? then Err(PresenceFailed)
    else if x.dies then Err(Died)
    else Ok(Acknowledged(RefOf(x.token), false, true, NewState(agent, d, x)))
  }

  // ---------- Which answer, and what it leaves ----------

  /** A valid token of a page of this very agent that may be acknowledged. */
  predicate Own(f: Formats, agent: string, t: Token) {
    TokenValid(f, t) && t.identity.agent_id == agent && t.identity.complete && t.identity.acknowledgeable
  }

  /** The watermark committed so far, from the state file if that holds one, else from the older file. */
  predicate StandsAt(f: Formats, d: Disk, w: Option<string>) {
    if d.state.Some? && d.state.value.last_seen.Some? then w == d.state.value.last_seen
    else
      match d.legacy
      case NoLegacy => w == None
      case BadLegacy => false
      case LegacyFile(seen) => w == seen && (seen.Some? && seen.value != "" ==> IsTimestamp(f, seen.value))
  }

  /** The page is in the history of a readable state file. */
  predicate Known(f: Formats, agent: string, d: Disk, t: Token) {
    && d.state.Some? && Readable(f, agent, d.state.value)
    && exists p :: p in d.state.value.pages && p.page_id == t.page_id && p.high == t.identity.high
  }

  /** Nothing has to be believed but what can be read: the state file if there is one, and a watermark. */
  ghost predicate Trusted(f: Formats, agent: string, d: Disk) {
    (d.state.Some? ==> Readable(f, agent, d.state.value)) && exists w :: StandsAt(f, d, w)
  }

  /** An own page that is not in the history, and starts at the committed watermark. */
  ghost predicate Follows(f: Formats, agent: string, d: Disk, t: Token) {
    Own(f, agent, t) && !Known(f, agent, d, t) && Trusted(f, agent, d) && StandsAt(f, d, t.identity.prior)
  }

  /** Exactly when each answer is given. */
  ghost predicate AnsweredExactly(f: Formats, agent: string, d: Disk, x: Attempt, r: Result<Acknowledged, AckError>) {
    var t := x.token;
    && (r == Err(InvalidToken) <==> !TokenValid(f, t))
    && (r == Err(WrongAgent) <==> TokenValid(f, t) && t.identity.agent_id != agent)
    && (r == Err(IncompletePage) <==>
        TokenValid(f, t) && t.identity.agent_id == agent && !(t.identity.complete && t.identity.acknowledgeable))
    && (r == Err(WatermarkConflict) <==>
        && Own(f, agent, t) && !Known(f, agent, d, t)
        && Trusted(f, agent, d) && !StandsAt(f, d, t.identity.prior))
    && (r == Err(StateInvalid) <==>
        || (Own(f, agent, t) && !Known(f, agent, d, t) && !Trusted(f, agent, d))
        || (Follows(f, agent, d, t) && x.transport == Absent))
    && (r == Err(PresenceFailed) <==> Follows(f, agent, d, t) && x.transport == Throws)
    && (r == Err(Died) <==> Follows(f, agent, d, t) && x.transport == Works && x.dies)
    && (r.Ok? <==> (Own(f, agent, t) && Known(f, agent, d, t)) ||
                   (Follows(f, agent, d, t) && x.transport == Works && !x.dies))
    && (r.Ok? ==>
        && r.value.page.page_id == t.page_id && r.value.page.high == t.identity.high
        && (r.value.idempotent <==> Known(f, agent, d, t)) && (r.value.presence_committed <==> !Known(f, agent, d, t)))
  }

  /** What is on disk afterwards: presence is called, and the state written, only for a page that follows. */
  ghost predicate LeavesExactly(d: Disk, x: Attempt, agent: string, r: Result<Acknowledged, AckError>, e: Disk) {
    && e.legacy == d.legacy
    && (if r == Err(Died) || (r.Ok? && !r.value.idempotent) then
          && |e.presence| == |d.presence| + 1 && d.presence <= e.presence
          && e.presence[|d.presence|].session == x.token.identity.session
          && e.presence[|d.presence|].observed_at == x.token.identity.high
        else e.presence == d.presence)
    && (if r.Ok? && !r.value.idempotent then
          && e.state == Some(r.value.state)
          && r.value.state.agent_id == agent && r.value.state.updated_at == x.now
          && r.value.state.last_seen == Some(x.token.identity.high) && r.value.state.last_page == Some(x.token.page_id)
          && (match d.state case None => r.value.state.ack_count == 1
                            case Some(s) => r.value.state.ack_count == s.ack_count + 1)
          && EndsHistory(if d.state.Some? then d.state.value.pages else [], x.token, r.value.state.pages)
        else e.state == d.state)
    && (r.Ok? && r.value.idempotent ==> Some(r.value.state) == d.state)
  }

  /** The last 128 of the pages before and the new one, or all of them when they are no more. */
  predicate EndsHistory(before: seq<PageRef>, t: Token, after: seq<PageRef>) {
    && |after| == (if |before| < 128 then |before| + 1 else 128)
    && after[|after| - 1] == PageRef(t.page_id, t.identity.high)
    && forall i :: 0 <= i < |after| - 1 ==> after[i] == before[|before| + 1 - |after| + i]
  }

  lemma WatermarkExactly(f: Formats, agent: string, d: Disk)
    requires DiskReadable(f, agent, d)
    ensures match CommittedWatermark(f, agent, d)
            case Ok(w) => Trusted(f, agent, d) && forall v :: StandsAt(f, d, v) <==> v == w
            case Err(e) => e == StateInvalid && !Trusted(f, agent, d)
  {
    hide Readable, IsTimestamp;
    if CommittedWatermark(f, agent, d).Ok? {
      assert StandsAt(f, d, CommittedWatermark(f, agent, d).value);
    }
  }

  lemma KnownExactly(f: Formats, agent: string, d: Disk, t: Token)
    requires DiskReadable(f, agent, d)
    ensures Known(f, agent, d, t) <==> RefOf(t) in Retained(d)
  {
    hide Readable;
    if RefOf(t) in Retained(d) {
      assert RefOf(t) in d.state.value.pages;
    }
  }

  /** Every answer, exactly: in particular another agent's page is never acknowledged, replays included. */
  lemma AnswersExactly(f: Formats, agent: string, d: Disk, x: Attempt)
    ensures AnsweredExactly(f, agent, d, x, Answer(f, agent, d, x))
    ensures LeavesExactly(d, x, agent, Answer(f, agent, d, x), AfterAttempt(f, agent, d, x))
  {
    hide Readable, TokenValid, CommittedWatermark, StandsAt, Known, Trusted, EndsHistory, LastOnes;
    if DiskReadable(f, agent, d) {
      WatermarkExactly(f, agent, d);
      KnownExactly(f, agent, d, x.token);
      HistoryEnds(Retained(d), x.token);
    } else {
      UnreadableKnowsNothing(f, agent, d, x.token);
    }
  }

  lemma UnreadableKnowsNothing(f: Formats, agent: string, d: Disk, t: Token)
    requires !DiskReadable(f, agent, d)
    ensures !Known(f, agent, d, t) && !Trusted(f, agent, d)
  {
    hide Readable;
  }

  lemma HistoryEnds(before: seq<PageRef>, t: Token)
    ensures EndsHistory(before, t, LastOnes(before + [RefOf(t)]))
  {
  }

  /** The page id seals the whole identity: with any part of it changed, the token is refused. */
  lemma PageIdBindsIdentity(f: Formats, t: Token, other: Identity)
    requires TokenValid(f, t) && (forall i, j :: f.page(i) == f.page(j) ==> i == j)
    ensures TokenValid(f, t.(identity := other)) <==> other == t.identity
  {
    hide IsTimestamp, IsUuid, IsSha256;
  }

  class ContinuityStore {
    const f: Formats
    const agent: string
    const legacy: Legacy
    var state: Option<AckState>
    var presence: seq<Presence>

    function Contents(): Disk
      reads this
    {
      Disk(state, legacy, presence)
    }

    constructor (f: Formats, agent: string, state: Option<AckState>, legacy: Legacy)
      ensures this.f == f && this.agent == agent && Contents() == Disk(state, legacy, [])
    {
      this.f, this.agent, this.legacy, this.state, this.presence := f, agent, legacy, state, [];
    }

    method Acknowledge(x: Attempt) returns (r: Result<Acknowledged, AckError>)
      modifies this
      ensures Contents() == AfterAttempt(f, agent, old(Contents()), x)
      ensures r == Answer(f, agent, old(Contents()), x)
      ensures AnsweredExactly(f, agent, old(Contents()), x, r)
      ensures LeavesExactly(old(Contents()), x, agent, r, Contents())
    {
      hide AnsweredExactly, LeavesExactly, Readable, TokenValid;
      AnswersExactly(f, agent, Contents(), x);
      var page := x.token.identity;
      if !TokenValid(f, x.token) {
        return Err(InvalidToken);
      }
      if page.agent_id != agent {
        return Err(WrongAgent);
      }
      if !page.complete || !page.acknowledgeable {
        return Err(IncompletePage);
      }
      if state.Some? && !Readable(f, agent, state.value) {
        return Err(StateInvalid);
      }
      if state.Some? && RefOf(x.token) in state.value.pages {
        return Ok(Acknowledged(RefOf(x.token), true, false, state.value));
      }
      var current: Option<string> := None;
      if state.Some? && state.value.last_seen.Some? {
        current := state.value.last_seen;
      } else {
        var older := LegacyWatermark(f, legacy);
        if older.Err? {
          return Err(older.error);
        }
        current := older.value;
      }
      if current != page.prior {
        return Err(WatermarkConflict);
      }
      if x.transport.Absent? {
        return Err(StateInvalid);
      }
      if x.transport.Throws? {
        return Err(PresenceFailed);
      }
      presence := presence + [Presence(page.session, page.high)];
      if x.dies {
        return Err(Died);
      }
      var pages := (if state.Some? then state.value.pages else []) + [RefOf(x.token)];
      if |pages| > MAX_RETAINED {
        pages := pages[|pages| - MAX_RETAINED..];
      }
      var count := if state.Some? then state.value.ack_count else 0;
      var next := AckState(agent, Some(page.high), Some(x.token.page_id), count + 1, pages, x.now);
      state := Some(next);
      return Ok(Acknowledged(RefOf(x.token), false, true, next));
    }
  }
}
