/**
 Staged copies under one `<appdata>/<name>` directory (src/docker_adopt/privileged.rs).
 Many runs share the directory; a run proves a stage its own by the token inside, since
 the stage's name is only a hash, which may collide.
 */
module Stages {
  import opened Wrappers
  import opened Text
  import opened Names

  // ---- The directory tree -----------------------------------------------------------

  datatype Node =
    | File(bytes: string)
    | Dir(uid: nat, mode: nat, entries: Entries)
    | Other

  type Entries = map<string, Node>

  const ROOT := 0
  const STAGE_MODE := 448 // 0o700
  const STAGE_TOKEN := ".orca-stage-token"
  const STAGE_DATA := "data"

  /** The first 16 hex digits of a SHA-256; nothing is assumed of it. */
  type Hash = string -> string

  datatype Pair = Pair(nonce: string, suffix: string)

  predicate ValidPair(p: Pair) {
    ValidNonce(p.nonce) && ValidName(p.suffix)
  }

  function StageName(h: Hash, p: Pair): string {
    ".orca-stage-" + h(p.nonce + "/" + p.suffix)
  }

  function Token(p: Pair): string {
    p.nonce + "\n" + p.suffix + "\n"
  }

  datatype Error = InvalidName | InvalidNonce | NotThisRuns | AlreadyExists | NoStage | Io | Differs

  /** `open_stage`: the stage's entries, `None` when there is no stage. */
  function OpenStage(h: Hash, app: Entries, p: Pair): Result<Option<Entries>, Error> {
    if !ValidName(p.suffix) then Err(InvalidName)
    else if !ValidNonce(p.nonce) then Err(InvalidNonce)
    else if StageName(h, p) !in app then Ok(None)
    else
      match app[StageName(h, p)]
      case Dir(uid, mode, entries) =>
        if uid != ROOT || mode != STAGE_MODE then Err(NotThisRuns)
        else if STAGE_TOKEN !in entries || entries[STAGE_TOKEN] != File(Token(p)) then Err(NotThisRuns)
        else Ok(Some(entries))
      case _ => Err(Io)
  }

  /** `p`'s stage is there and passes the check. */
  predicate Holds(h: Hash, app: Entries, p: Pair) {
    OpenStage(h, app, p).Ok? && OpenStage(h, app, p).value.Some?
  }

  function StageDir(entries: Entries): Node {
    Dir(ROOT, STAGE_MODE, entries)
  }

  // ---- What one operation leaves ------------------------------------------------------
  // Any system call may fail; each operation's Io says which go through.

  /** How far writing the token got: not at all, some bytes of it, or all of it. */
  datatype TokenWrite = NotCreated | Partly(n: nat) | Synced

  datatype CreateIo = CreateIo(made: bool, confirmed: bool, token: TokenWrite, undone: bool)

  /** `create_stage`. */
  function Created(h: Hash, app: Entries, p: Pair, io: CreateIo): Entries {
    if !ValidPair(p) || p.suffix in app || StageName(h, p) in app || !io.made then app
    else if !io.confirmed then app[StageName(h, p) := StageDir(map[])]
    else
      match io.token
      case NotCreated => if io.undone then app else app[StageName(h, p) := StageDir(map[])]
      case Partly(n) => app[StageName(h, p) := StageDir(map[STAGE_TOKEN := File(FirstBytes(Token(p), n))])]
      case Synced => app[StageName(h, p) := StageDir(map[STAGE_TOKEN := File(Token(p))])]
  }

  /** Whether `create_stage` succeeds. */
  predicate CreateOk(h: Hash, app: Entries, p: Pair, io: CreateIo) {
    && ValidPair(p) && p.suffix !in app && StageName(h, p) !in app
    && io.made && io.confirmed && io.token == Synced
  }

  /** `clear` stops with `left` still in `data`, or empties it. */
  datatype DiscardIo = DiscardIo(left: Option<Entries>, dataRemoved: bool, tokenRemoved: bool, dirRemoved: bool)

  /** `discard_stage` on a stage holding `stage`: what its directory holds after, `None` when gone. */
  function Discarded(stage: Entries, io: DiscardIo): Option<Entries> {
    if STAGE_DATA in stage && !stage[STAGE_DATA].Dir? then Some(stage)
    else if STAGE_DATA in stage && io.left.Some? then
      Some(stage[STAGE_DATA := stage[STAGE_DATA].(entries := io.left.value)])
    else if STAGE_DATA in stage && !io.dataRemoved then
      Some(stage[STAGE_DATA := stage[STAGE_DATA].(entries := map[])])
    else if !io.tokenRemoved then Some(stage - {STAGE_DATA})
    else if stage - {STAGE_DATA, STAGE_TOKEN} != map[] || !io.dirRemoved then
      Some(stage - {STAGE_DATA, STAGE_TOKEN})
    else None
  }

  function WithStage(app: Entries, name: string, stage: Option<Entries>): Entries {
    match stage
    case Some(entries) => app[name := StageDir(entries)]
    case None => app - {name}
  }

  /** `cp` leaves `data` in the stage, and says whether it and the checks around it passed. */
  datatype CopyIo = CopyIo(data: Option<Node>, passed: bool, discard: DiscardIo)

  /** The manifest's digest of a directory. */
  type Digest = Node -> string

  predicate CopyVerified(digest: Digest, src: Node, io: CopyIo) {
    io.passed && io.data.Some? && io.data.value.Dir? && digest(io.data.value) == digest(src)
  }

  function StageAfterCp(stage: Entries, io: CopyIo): Entries {
    if io.data.Some? then stage[STAGE_DATA := io.data.value] else stage
  }

  /** `stage_copy` after `create_stage`, on the stage it holds. */
  function Filled(h: Hash, digest: Digest, app: Entries, p: Pair, src: Node, io: CopyIo): Entries {
    if !Holds(h, app, p) then app
    else
      var stage := StageAfterCp(OpenStage(h, app, p).value.value, io);
      if CopyVerified(digest, src, io) then app[StageName(h, p) := StageDir(stage)]
      else WithStage(app, StageName(h, p), Discarded(stage, io.discard))
  }

  /** `remove_staged`. */
  function Removed(h: Hash, app: Entries, p: Pair, io: DiscardIo): Entries {
    if !Holds(h, app, p) then app
    else WithStage(app, StageName(h, p), Discarded(OpenStage(h, app, p).value.value, io))
  }

  datatype ExposeIo = ExposeIo(moved: bool, tokenRemoved: bool, dirRemoved: bool)

  /** `expose_staged`. */
  function Exposed(h: Hash, app: Entries, p: Pair, io: ExposeIo): Entries {
    if !Holds(h, app, p) then app
    else
      var stage := OpenStage(h, app, p).value.value;
      if STAGE_DATA !in stage || p.suffix in app || !io.moved then app
      else
        var rest := Discarded(stage - {STAGE_DATA}, DiscardIo(None, true, io.tokenRemoved, io.dirRemoved));
        WithStage(app[p.suffix := stage[STAGE_DATA]], StageName(h, p), rest)
  }

  /** `Discarded`, one removal after the other. */
  lemma DiscardedInTurn(stage: Entries, io: DiscardIo)
    ensures Discarded(stage, io)
         == if STAGE_DATA in stage && (!stage[STAGE_DATA].Dir? || io.left.Some? || !io.dataRemoved) then
              Some(if stage[STAGE_DATA].Dir?
                   then stage[STAGE_DATA := stage[STAGE_DATA].(entries := io.left.GetOr(map[]))] else stage)
            else
              var rest := if STAGE_DATA in stage then stage - {STAGE_DATA} else stage;
              var bare := rest - {STAGE_TOKEN};
              if !io.tokenRemoved then Some(rest) else if bare != map[] || !io.dirRemoved then Some(bare) else None
  {
    assert stage - {STAGE_DATA} - {STAGE_TOKEN} == stage - {STAGE_DATA, STAGE_TOKEN};
    if STAGE_DATA !in stage { assert stage - {STAGE_DATA} == stage; }
  }

  // ---- The directory and the operations, step by step --------------------------------------

  class AppDir {
    const h: Hash
    const digest: Digest
    var entries: Entries

    constructor (h: Hash, digest: Digest, entries: Entries)
      ensures this.h == h && this.digest == digest && this.entries == entries
    {
      this.h, this.digest, this.entries := h, digest, entries;
    }

    method CreateStage(p: Pair, io: CreateIo) returns (r: Result<(), Error>)
      modifies this
      ensures entries == Created(h, old(entries), p, io)
      ensures r.Ok? <==> CreateOk(h, old(entries), p, io)
    {
      if !ValidName(p.suffix) { return Err(InvalidName); }
      if !ValidNonce(p.nonce) { return Err(InvalidNonce); }
      if p.suffix in entries { return Err(AlreadyExists); }
      var sname := StageName(h, p);
      if sname in entries || !io.made { return Err(Io); }
      entries := entries[sname := StageDir(map[])];
      if !io.confirmed { return Err(Io); }
      if io.token != NotCreated {
        var bytes := if io.token.Partly? then FirstBytes(Token(p), io.token.n) else Token(p);
        entries := entries[sname := StageDir(map[STAGE_TOKEN := File(bytes)])];
        assert STAGE_TOKEN in entries[sname].entries;
      }
      if io.token != Synced {
        // The undo only removes an empty directory.
        if io.undone && entries[sname].entries == map[] {
          entries := entries - {sname};
          assert entries == old(entries);
        }
        return Err(Io);
      }
      return Ok(());
    }

    /** `discard_stage`: data, then token, then directory. */
    method DiscardStage(sname: string, io: DiscardIo) returns (r: Result<(), Error>)
      requires sname in entries && entries[sname].Dir?
      requires entries[sname].uid == ROOT && entries[sname].mode == STAGE_MODE
      modifies this
      ensures entries == WithStage(old(entries), sname, Discarded(old(entries)[sname].entries, io))
      ensures r.Ok? <==> sname !in entries
    {
      hide ValidName, ValidNonce, StageName, Token, Discarded;
      var stage := entries[sname].entries;
      DiscardedInTurn(stage, io);
      if STAGE_DATA in stage {
        if !stage[STAGE_DATA].Dir? { return Err(Io); }
        var left := io.left.GetOr(map[]);
        entries := entries[sname := StageDir(stage[STAGE_DATA := stage[STAGE_DATA].(entries := left)])];
        if io.left.Some? || !io.dataRemoved { return Err(Io); }
        stage := stage - {STAGE_DATA};
        entries := entries[sname := StageDir(stage)];
      }
      assert entries == old(entries)[sname := StageDir(stage)];
      if !io.tokenRemoved { return Err(Io); }
      stage := stage - {STAGE_TOKEN};
      entries := entries[sname := StageDir(stage)];
      assert entries == old(entries)[sname := StageDir(stage)];
      if stage != map[] || !io.dirRemoved { return Err(Io); }
      entries := entries - {sname};
      return Ok(());
    }

    /** The copy into the stage just created, and its verification. */
    method FillStage(p: Pair, src: Node, io: CopyIo) returns (r: Result<(), Error>)
      modifies this
      ensures entries == Filled(h, digest, old(entries), p, src, io)
      ensures r.Ok? <==> Holds(h, old(entries), p) && CopyVerified(digest, src, io)
    {
      if !Holds(h, entries, p) { return Err(NoStage); }
      var sname := StageName(h, p);
      var stage := StageAfterCp(entries[sname].entries, io);
      entries := entries[sname := StageDir(stage)];
      if io.passed && STAGE_DATA in stage && io.data.Some? && stage[STAGE_DATA].Dir?
         && digest(stage[STAGE_DATA]) == digest(src)
      {
        return Ok(());
      }
      var _ := DiscardStage(sname, io.discard);
      return Err(Differs);
    }

    method RemoveStaged(p: Pair, io: DiscardIo) returns (r: Result<(), Error>)
      modifies this
      ensures entries == Removed(h, old(entries), p, io)
      ensures r.Ok? <==> Holds(h, old(entries), p) && StageName(h, p) !in entries
    {
      var found := OpenStage(h, entries, p);
      if found.Err? { return Err(found.error); }
      if found.value.None? { return Err(NoStage); }
      r := DiscardStage(StageName(h, p), io);
    }

    method ExposeStaged(p: Pair, io: ExposeIo) returns (r: Result<(), Error>)
      modifies this
      ensures entries == Exposed(h, old(entries), p, io)
      ensures r.Ok? <==> Holds(h, old(entries), p) && StageName(h, p) !in entries
    {
      var found := OpenStage(h, entries, p);
      if found.Err? { return Err(found.error); }
      if found.value.None? { return Err(NoStage); }
      var sname := StageName(h, p);
      var stage := found.value.value;
      SuffixIsNoStage(h, p.suffix, p);
      if STAGE_DATA !in stage || p.suffix in entries || !io.moved { return Err(Io); }
      entries := entries[p.suffix := stage[STAGE_DATA]];
      stage := stage - {STAGE_DATA};
      entries := entries[sname := StageDir(stage)];
      assert stage - {STAGE_DATA, STAGE_TOKEN} == stage - {STAGE_TOKEN};
      assert stage - {STAGE_DATA} == stage;
      if !io.tokenRemoved { return Err(Io); }
      stage := stage - {STAGE_TOKEN};
      entries := entries[sname := StageDir(stage)];
      if stage != map[] || !io.dirRemoved { return Err(Io); }
      entries := entries - {sname};
      return Ok(());
    }

    /** Any operation of any run. */
    method Perform(op: Op)
      modifies this
      ensures entries == Step(h, digest, old(entries), op)
    {
      match op
      case Create(p, io) => var _ := CreateStage(p, io);
      case Fill(p, src, io) => var _ := FillStage(p, src, io);
      case Remove(p, io) => var _ := RemoveStaged(p, io);
      case Expose(p, io) => var _ := ExposeStaged(p, io);
    }
  }

  // ---- Runs -------------------------------------------------------------------------------

  datatype Op =
    | Create(p: Pair, createIo: CreateIo)
    | Fill(p: Pair, src: Node, copyIo: CopyIo)
    | Remove(p: Pair, discardIo: DiscardIo)
    | Expose(p: Pair, exposeIo: ExposeIo)

  function Step(h: Hash, digest: Digest, app: Entries, op: Op): Entries {
    match op
    case Create(p, io) => Created(h, app, p, io)
    case Fill(p, src, io) => Filled(h, digest, app, p, src, io)
    case Remove(p, io) => Removed(h, app, p, io)
    case Expose(p, io) => Exposed(h, app, p, io)
  }

  /** `st` are the directory's states as any number of runs perform `ops` in turn. */
  predicate IsRun(h: Hash, digest: Digest, ops: seq<Op>, st: seq<Entries>) {
    |st| == |ops| + 1 && forall i | 0 <= i < |ops| :: st[i + 1] == Step(h, digest, st[i], ops[i])
  }

  /** No stage any run would take for its own. */
  ghost predicate NoStages(h: Hash, app: Entries) {
    forall p :: !Holds(h, app, p)
  }

  // ---- Names and tokens ---------------------------------------------------------------------

  /** A destination never names a stage. */
  lemma SuffixIsNoStage(h: Hash, suffix: string, q: Pair)
    requires ValidName(suffix)
    ensures suffix != StageName(h, q)
  {
    assert StageName(h, q)[0] == '.';
  }

  lemma TokenParts(p: Pair)
    requires ValidPair(p)
    ensures var (s, k) := (Token(p), 17 + |p.suffix|);
            && |s| == k + 1 && s[..16] == p.nonce && s[17..k] == p.suffix && s[k] == '\n'
            && forall i | 17 <= i < k :: s[i] != '\n'
  {
    var (s, k) := (Token(p), 17 + |p.suffix|);
    assert s[17..k] == p.suffix;
    forall i | 17 <= i < k ensures s[i] != '\n' { assert s[i] == p.suffix[i - 17] && IsNameChar(p.suffix[i - 17]); }
  }

  /** Bytes of `p`'s token are no other pair's token. */
  lemma TokenTellsPairs(p: Pair, q: Pair, n: nat)
    requires ValidPair(p) && ValidPair(q) && FirstBytes(Token(p), n) == Token(q)
    ensures p == q
  {
    var (s, t) := (Token(p), Token(q));
    TokenParts(p);
    TokenParts(q);
    hide Token, ValidPair;
    assert |t| <= |s| && t == s[..|t|];
    assert s[..16] == t[..16];
    var k := 17 + |q.suffix|;
    assert s[k] == t[k] == '\n';
    assert k == 17 + |p.suffix|;
    assert forall i | 0 <= i < |t| :: s[i] == t[i];
    assert s[17..k] == t[17..k];
  }

  lemma CreatedHolds(h: Hash, a: Entries, p: Pair, io: CreateIo)
    requires CreateOk(h, a, p, io)
    ensures Holds(h, Created(h, a, p, io), p)
  {}

  // ---- One step -------------------------------------------------------------------------------

  /** An operation leaves alone everything but its own stage and, when exposing, a free destination. */
  lemma StepFrame(h: Hash, digest: Digest, app: Entries, op: Op, n: string)
    requires n != StageName(h, op.p)
    ensures var after := Step(h, digest, app, op);
            n in app ==> n in after && after[n] == app[n]
    ensures var after := Step(h, digest, app, op);
            n !in app && n in after ==>
              op.Expose? && n == op.p.suffix && Holds(h, app, op.p)
              && STAGE_DATA in OpenStage(h, app, op.p).value.value
              && after[n] == OpenStage(h, app, op.p).value.value[STAGE_DATA]
  {}

  /** What is already there under the stage's name changes only if it passes the check. */
  lemma StepNeedsOwnStage(h: Hash, digest: Digest, app: Entries, op: Op)
    requires StageName(h, op.p) in app && !Holds(h, app, op.p)
    ensures Step(h, digest, app, op) == app
  {}

  /** A stage passes `q`'s check after a step only if it did before, or was just created for `q`. */
  lemma StepMakesOwnStage(h: Hash, digest: Digest, app: Entries, op: Op, q: Pair)
    requires Holds(h, Step(h, digest, app, op), q)
    ensures StageName(h, q) in app ==> Holds(h, app, q)
    ensures StageName(h, q) !in app ==> op.Create? && op.p == q
  {
    var n := StageName(h, q);
    var after := Step(h, digest, app, op);
    SuffixIsNoStage(h, q.suffix, q);
    if n != StageName(h, op.p) {
      StepFrame(h, digest, app, op, n);
      if n !in app { SuffixIsNoStage(h, op.p.suffix, q); }
    } else if n in app {
      if !Holds(h, app, op.p) { StepNeedsOwnStage(h, digest, app, op); }
      else { OwnStageKeepsToken(h, digest, app, op); }
    } else {
      NewStageIsCreated(h, digest, app, op, q);
    }
  }

  /** A changed stage keeps its token's bytes, or has lost the token. */
  lemma OwnStageKeepsToken(h: Hash, digest: Digest, app: Entries, op: Op)
    requires Holds(h, app, op.p)
    ensures var n := StageName(h, op.p);
            var after := Step(h, digest, app, op);
            n in after ==>
              after[n].Dir? && (STAGE_TOKEN in after[n].entries ==> after[n].entries[STAGE_TOKEN] == File(Token(op.p)))
  {
    assert STAGE_TOKEN != STAGE_DATA;
    if op.Expose? { SuffixIsNoStage(h, op.p.suffix, op.p); }
  }

  lemma NewStageIsCreated(h: Hash, digest: Digest, app: Entries, op: Op, q: Pair)
    requires StageName(h, q) == StageName(h, op.p) && StageName(h, q) !in app
    requires Holds(h, Step(h, digest, app, op), q)
    ensures op.Create? && op.p == q
  {
    if op.Create? {
      var n := if op.createIo.token.Partly? then op.createIo.token.n else |Token(op.p)|;
      var after := Step(h, digest, app, op);
      assert after[StageName(h, q)].entries[STAGE_TOKEN] == File(FirstBytes(Token(op.p), n));
      TokenTellsPairs(op.p, q, n);
    }
  }

  /** A pair's stage is out of reach of every other pair's operations, same hash or not. */
  lemma StepKeepsOthersStage(h: Hash, digest: Digest, app: Entries, op: Op, q: Pair)
    requires Holds(h, app, q) && op.p != q
    ensures StageName(h, q) in Step(h, digest, app, op)
    ensures Step(h, digest, app, op)[StageName(h, q)] == app[StageName(h, q)]
  {
    if StageName(h, op.p) != StageName(h, q) {
      StepFrame(h, digest, app, op, StageName(h, q));
    } else {
      if Holds(h, app, op.p) { TokenTellsPairs(q, op.p, |Token(q)|); }
      StepNeedsOwnStage(h, digest, app, op);
    }
  }

  // ---- Every interleaving ------------------------------------------------------------------------

  /** Operation `j` was a creation for `q`, and what it made is still there at `i`. */
  predicate MadeFor(h: Hash, ops: seq<Op>, st: seq<Entries>, q: Pair, j: nat, i: nat)
    requires |st| == |ops| + 1 && i < |st|
  {
    && j < i && ops[j].Create? && ops[j].p == q && StageName(h, q) !in st[j]
    && forall m | j < m <= i :: StageName(h, q) in st[m]
  }

  /** A stage that passes a pair's check was created for that pair, whatever ran in between. */
  lemma {:induction false} StagesAreOwn(h: Hash, digest: Digest, ops: seq<Op>, st: seq<Entries>, i: nat, q: Pair)
    returns (j: nat)
    requires IsRun(h, digest, ops, st) && NoStages(h, st[0]) && i < |st|
    requires Holds(h, st[i], q)
    ensures MadeFor(h, ops, st, q, j, i)
  {
    hide Holds, Step;
    assert !Holds(h, st[0], q);
    StepMakesOwnStage(h, digest, st[i - 1], ops[i - 1], q);
    assert Holds(h, st[i], q) ==> StageName(h, q) in st[i] by { StageIsThere(h, st[i], q); }
    if StageName(h, q) in st[i - 1] {
      j := StagesAreOwn(h, digest, ops, st, i - 1, q);
    } else {
      j := i - 1;
    }
  }

  lemma StageIsThere(h: Hash, app: Entries, q: Pair)
    requires Holds(h, app, q)
    ensures StageName(h, q) in app
  {}

  /**
   Whatever an operation removes, moves or changes is a stage created for its own pair;
   in particular an exposed copy is never touched.
   */
  lemma StageIsolation(h: Hash, digest: Digest, ops: seq<Op>, st: seq<Entries>, k: nat, n: string)
    returns (j: nat)
    requires IsRun(h, digest, ops, st) && NoStages(h, st[0]) && k < |ops|
    requires n in st[k] && !(n in st[k + 1] && st[k + 1][n] == st[k][n])
    ensures n == StageName(h, ops[k].p) && MadeFor(h, ops, st, ops[k].p, j, k)
  {
    hide Holds, Step;
    var op := ops[k];
    assert st[k + 1] == Step(h, digest, st[k], op);
    if n != StageName(h, op.p) {
      StepFrame(h, digest, st[k], op, n);
    }
    if !Holds(h, st[k], op.p) {
      StepNeedsOwnStage(h, digest, st[k], op);
    }
    j := StagesAreOwn(h, digest, ops, st, k, op.p);
  }

  /** An entry no stage is named like, an exposed copy above all, stays for good. */
  lemma {:induction false} DestinationStays(h: Hash, digest: Digest, ops: seq<Op>, st: seq<Entries>,
                                            k: nat, m: nat, suffix: string)
    requires IsRun(h, digest, ops, st) && k <= m < |st|
    requires ValidName(suffix) && suffix in st[k]
    ensures suffix in st[m] && st[m][suffix] == st[k][suffix]
  {
    hide Step, ValidName;
    if k == m {
    } else {
      DestinationStays(h, digest, ops, st, k, m - 1, suffix);
      assert st[m - 1 + 1] == Step(h, digest, st[m - 1], ops[m - 1]);
      SuffixIsNoStage(h, suffix, ops[m - 1].p);
      StepFrame(h, digest, st[m - 1], ops[m - 1], suffix);
    }
  }

  lemma {:induction false} StageStays(h: Hash, digest: Digest, ops: seq<Op>, st: seq<Entries>, j: nat, k: nat, p: Pair)
    requires IsRun(h, digest, ops, st) && j <= k < |st| && Holds(h, st[j], p)
    requires forall i | j <= i < k :: ops[i].p != p
    ensures Holds(h, st[k], p) && OpenStage(h, st[k], p) == OpenStage(h, st[j], p)
  {
    if j == k {
    } else {
      hide Step;
      StageStays(h, digest, ops, st, j, k - 1, p);
      assert st[k - 1 + 1] == Step(h, digest, st[k - 1], ops[k - 1]);
      StepKeepsOthersStage(h, digest, st[k - 1], ops[k - 1], p);
    }
  }

  lemma VerifiedFill(h: Hash, digest: Digest, app: Entries, op: Op)
    requires op.Fill? && Holds(h, app, op.p) && CopyVerified(digest, op.src, op.copyIo)
    ensures var after := Step(h, digest, app, op);
            Holds(h, after, op.p) && STAGE_DATA in OpenStage(h, after, op.p).value.value
            && OpenStage(h, after, op.p).value.value[STAGE_DATA] == op.copyIo.data.value
  {
    assert STAGE_TOKEN != STAGE_DATA;
  }

  /**
   What a run exposes is the copy it verified, and it stays: however other runs operated in
   between, the destination holds from then on a tree with the source's digest.
   */
  lemma ExposedIsVerified(h: Hash, digest: Digest, ops: seq<Op>, st: seq<Entries>, j: nat, k: nat, m: nat)
    requires IsRun(h, digest, ops, st) && j < k < m < |st|
    requires ops[j].Fill? && Holds(h, st[j], ops[j].p) && CopyVerified(digest, ops[j].src, ops[j].copyIo)
    requires forall i | j < i < k :: ops[i].p != ops[j].p
    requires ops[k].Expose? && ops[k].p == ops[j].p && ops[k].exposeIo.moved && ops[k].p.suffix !in st[k]
    ensures ops[k].p.suffix in st[m] && digest(st[m][ops[k].p.suffix]) == digest(ops[j].src)
  {
    var p := ops[j].p;
    assert st[j + 1] == Step(h, digest, st[j], ops[j]) && st[k + 1] == Step(h, digest, st[k], ops[k]);
    VerifiedFill(h, digest, st[j], ops[j]);
    StageStays(h, digest, ops, st, j + 1, k, p);
    SuffixIsNoStage(h, p.suffix, p);
    assert st[k + 1][p.suffix] == ops[j].copyIo.data.value;
    DestinationStays(h, digest, ops, st, k + 1, m, p.suffix);
  }

  // ---- The operations, spelled out ---------------------------------------------------------------

  /** Where `p`'s stage is. */
  function StagePath(h: Hash, p: Pair): string {
    ".orca-stage-" + h(p.nonce + "/" + p.suffix)
  }

  /** A stage is `p`'s only if it is a directory of root's, closed to all others, with `p`'s token in it. */
  lemma HoldsSpelled(h: Hash, app: Entries, p: Pair)
    ensures Holds(h, app, p) <==>
              && ValidName(p.suffix) && ValidNonce(p.nonce)
              && StagePath(h, p) in app && app[StagePath(h, p)].Dir?
              && app[StagePath(h, p)].uid == 0 && app[StagePath(h, p)].mode == 0x1C0
              && ".orca-stage-token" in app[StagePath(h, p)].entries
              && app[StagePath(h, p)].entries[".orca-stage-token"] == File(p.nonce + "\n" + p.suffix + "\n")
  {
    hide ValidName, ValidNonce;
  }

  lemma NothingElse(stage: Entries, names: set<string>)
    ensures stage - names == map[] <==> stage.Keys <= names
  {
    assert (stage - names).Keys == stage.Keys - names;
    if stage.Keys <= names {
      assert (stage - names).Keys == {};
    } else {
      var e :| e in stage && e !in names;
      assert e in stage - names;
    }
  }

  /**
   A discard works from the inside out: the copy is emptied and removed, then the token, then the
   directory if nothing else is in it. It stops where a call fails, and at a copy that is no directory.
   */
  lemma RemoveSpelled(h: Hash, app: Entries, p: Pair, io: DiscardIo)
    requires Holds(h, app, p)
    ensures var (n, stage, after) := (StagePath(h, p), app[StagePath(h, p)].entries, Removed(h, app, p, io));
            var emptied := "data" in stage ==> stage["data"].Dir? && io.left.None? && io.dataRemoved;
            && (forall e | e != n :: (e in after <==> e in app) && (e in app ==> after[e] == app[e]))
            && (n !in after <==>
                  emptied && io.tokenRemoved && io.dirRemoved && stage.Keys <= {"data", ".orca-stage-token"})
            && (n in after ==>
                  && after[n].Dir? && after[n].uid == 0 && after[n].mode == 0x1C0
                  && after[n].entries ==
                     (if !emptied then
                        if stage["data"].Dir? then stage["data" := stage["data"].(entries := io.left.GetOr(map[]))]
                        else stage
                      else if !io.tokenRemoved then stage - {"data"} else stage - {"data", ".orca-stage-token"}))
  {
    hide ValidName, ValidNonce, Token;
    var stage := app[StagePath(h, p)].entries;
    NothingElse(stage, {"data", ".orca-stage-token"});
  }

  /**
   An exposure moves the copy to a free name, then removes the token and the directory; where it
   cannot move, nothing happens.
   */
  lemma ExposeSpelled(h: Hash, app: Entries, p: Pair, io: ExposeIo)
    requires Holds(h, app, p)
    ensures var (n, stage, after) := (StagePath(h, p), app[StagePath(h, p)].entries, Exposed(h, app, p, io));
            var moves := "data" in stage && p.suffix !in app && io.moved;
            && (!moves ==> after == app)
            && (moves ==>
                  && p.suffix in after && after[p.suffix] == stage["data"]
                  && (forall e | e != n && e != p.suffix ::
                        (e in after <==> e in app) && (e in app ==> after[e] == app[e]))
                  && (n !in after <==> io.tokenRemoved && io.dirRemoved && stage.Keys <= {"data", ".orca-stage-token"})
                  && (n in after ==>
                        after[n] == Dir(0, 0x1C0, if io.tokenRemoved then stage - {"data", ".orca-stage-token"}
                                                  else stage - {"data"})))
  {
    SuffixIsNoStage(h, p.suffix, p);
    hide ValidName, ValidNonce, Token;
    var stage := app[StagePath(h, p)].entries;
    var rest := stage - {"data"};
    assert rest - {"data"} == rest && rest - {"data", ".orca-stage-token"} == stage - {"data", ".orca-stage-token"};
    NothingElse(stage, {"data", ".orca-stage-token"});
  }

  /** A stage is made closed and with its token, or with what of it was written before a call failed. */
  lemma CreateSpelled(h: Hash, app: Entries, p: Pair, io: CreateIo)
    ensures var (n, after) := (StagePath(h, p), Created(h, app, p, io));
            var begins := ValidName(p.suffix) && ValidNonce(p.nonce) && p.suffix !in app && n !in app && io.made;
            var token := p.nonce + "\n" + p.suffix + "\n";
            && (!begins ==> after == app)
            && (begins ==>
                  after ==
                  if !io.confirmed then app[n := Dir(0, 0x1C0, map[])]
                  else if io.token.Synced? then app[n := Dir(0, 0x1C0, map[".orca-stage-token" := File(token)])]
                  else if io.token.Partly? then
                    app[n := Dir(0, 0x1C0, map[".orca-stage-token" := File(FirstBytes(token, io.token.n))])]
                  else if io.undone then app else app[n := Dir(0, 0x1C0, map[])])
  {
    hide ValidName, ValidNonce, FirstBytes;
  }

  /** A copy that is verified stays in the stage beside the token; any other is discarded with it. */
  lemma FillSpelled(h: Hash, digest: Digest, app: Entries, p: Pair, src: Node, io: CopyIo)
    requires Holds(h, app, p)
    ensures var (n, stage) := (StagePath(h, p), app[StagePath(h, p)].entries);
            var with := if io.data.Some? then stage["data" := io.data.value] else stage;
            Filled(h, digest, app, p, src, io)
              == if io.passed && io.data.Some? && io.data.value.Dir? && digest(io.data.value) == digest(src)
                 then app[n := Dir(0, 0x1C0, with)]
                 else Removed(h, app[n := Dir(0, 0x1C0, with)], p, io.discard)
  {
    hide ValidName, ValidNonce, Token, Discarded;
    var n := StagePath(h, p);
    var with := if io.data.Some? then app[n].entries["data" := io.data.value] else app[n].entries;
    assert Holds(h, app[n := Dir(0, 0x1C0, with)], p);
  }
}
