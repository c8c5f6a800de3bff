/** The download manager as a protocol (`downloader.rs`): commands, the background driver and the
    process's death interleave over one shared status, one cancel flag and the files on disk. Steps
    are cut where the driver awaits or takes the lock. */
module DownloadProtocol {
  import opened Text
  import opened Download

  // -------------------------------------------------------------------- requests

  datatype Args = Args(modelId: string, version: string, parts: Option<seq<Part>>, total: Option<nat>, trust: Trust) {
    function Total(): nat {
      if total.Some? then total.value else if parts.Some? then SizeSum(parts.value) else 0
    }

    /** `start` refuses a delta manifest that does not tile the file. */
    predicate WellFormed() { parts.Some? ==> Tiles(parts.value, Total()) }

    /** The model's file name; its `.part` sits beside it. Different requests may share it. */
    function Path(): string { SafeName(modelId) + "-" + SafeName(version) + ".gguf" }
  }

  function SafeName(s: string): string {
    if s == "" then ""
    else [if IsIdentChar(s[0]) || s[0] == '.' || s[0] == '-' then s[0] else '_'] + SafeName(s[1..])
  }

  /** A file name keeps ASCII letters, digits, dots, dashes and underscores, and shows every other character
      as an underscore: one path component, of the same length. */
  lemma {:induction false} SafeNameExact(s: string)
    ensures |SafeName(s)| == |s|
    ensures forall i :: 0 <= i < |s| ==>
              SafeName(s)[i] == if IsIdentChar(s[i]) || s[i] in ".-" then s[i] else '_'
  {
    if s != "" {
      SafeNameExact(s[1..]);
      assert ".-"[0] == '.' && ".-"[1] == '-';
    }
  }

  // ----------------------------------------------------------------------- state

  datatype Phase = Idle | Downloading | Verifying | Complete | Failed | CancelledPhase

  predicate Busy(p: Phase) { p.Downloading? || p.Verifying? }

  datatype Ending = Succeeded | Stopped | Broken

  datatype Pc =
    | Reserved                                // status set, cancel flag not yet fetched
    | Begun
    | Streaming(body: Bytes, rest: seq<Part>) // what the response still holds, parts after it
    | NextPart(todo: seq<Part>)
    | Fetched
    | Checking
    | Checked
    | Ended(how: Ending)

  datatype Driver = Driver(args: Args, flag: nat, pc: Pc)

  /** `flag` names the current cancel flag object; `raised` are the flags set so far. */
  datatype World = World(
    phase: Phase, flag: nat, nextFlag: nat, raised: set<nat>, drivers: seq<Driver>,
    part: map<string, Bytes>, model: map<string, Bytes>, starts: set<Args>)

  const INITIAL: World := World(Idle, 0, 1, {}, [], map[], map[], {})

  function OnDisk(w: World, path: string): Bytes {
    if path in w.part then w.part[path] else []
  }

  // ---------------------------------------------------------------------- events

  datatype Answer = Refuse | Body(status: nat, bytes: Bytes)

  datatype Event =
    | Start(args: Args)
    | Cancel
    | Spawn(i: nat)
    | Begin(i: nat, answer: Answer)
    | Fetch(i: nat, answer: Answer)
    | SeeCancel(i: nat)
    | Chunk(i: nat, n: nat)
    | Fail(i: nat)
    | TornWrite(i: nat, n: nat)
    | CleanEnd(i: nat)
    | EnterVerifying(i: nat)
    | Verify(i: nat)
    | Promote(i: nat, renamed: bool)
    | Finish(i: nat)
    | Crash(n: nat)

  function To(w: World, i: nat, pc: Pc): World
    requires i < |w.drivers|
  {
    w.(drivers := w.drivers[i := w.drivers[i].(pc := pc)])
  }

  function Take(b: Bytes, n: nat): Bytes { if n <= |b| then b[..n] else b }
  function Skip(b: Bytes, n: nat): Bytes { if n <= |b| then b[n..] else [] }

  function Append(w: World, path: string, b: Bytes): World {
    w.(part := w.part[path := OnDisk(w, path) + b])
  }

  /** The offset a blob request asks for. */
  function Asked(w: World, a: Args): nat {
    match Request(|OnDisk(w, a.Path())|, a.total)
    case Some(offset) => offset
    case None => 0
  }

  function BeginBlob(w: World, i: nat, answer: Answer): World
    requires i < |w.drivers|
  {
    var a := w.drivers[i].args;
    var path := a.Path();
    var decision := Decide(|OnDisk(w, path)|, if a.total.Some? then a.total.value else U64 - 1);
    var w1 := if decision.Restart? then w.(part := w.part - {path}) else w;
    if decision.Complete? then To(w, i, Fetched)
    else if answer.Refuse? || (answer.status != 200 && answer.status != 206) then To(w1, i, Ended(Broken))
    else
      var kept := if Asked(w, a) > 0 && answer.status == 206 then OnDisk(w, path) else [];
      To(w1.(part := w1.part[path := kept]), i, Streaming(answer.bytes, []))
  }

  function BeginDelta(w: World, i: nat, parts: seq<Part>): World
    requires i < |w.drivers|
  {
    var path := w.drivers[i].args.Path();
    var have := |OnDisk(w, path)|;
    var b := Boundary(parts, have);
    var w1 := if b == 0 then w.(part := w.part - {path})
              else w.(part := w.part[path := Take(OnDisk(w, path), b)]);
    To(w1, i, NextPart(PartsToFetch(parts, b)))
  }

  type Verifier = (Bytes, Trust) -> bool

  /** One step of driver `i`; an event that is not enabled changes nothing. */
  function DriverStep(w: World, i: nat, e: Event, accepts: Verifier): World
    requires i < |w.drivers|
  {
    var d := w.drivers[i];
    var path := d.args.Path();
    match (e, d.pc)
    case (Spawn(_), Reserved) => w.(drivers := w.drivers[i := d.(flag := w.flag, pc := Begun)])
    case (Begin(_, answer), Begun) =>
      if path in w.model then To(w, i, Ended(Succeeded))
      else if d.args.parts.Some? then BeginDelta(w, i, d.args.parts.value)
      else BeginBlob(w, i, answer)
    case (Fetch(_, answer), NextPart(todo)) =>
      if todo == [] then To(w, i, Fetched)
      else if d.flag in w.raised then To(w, i, Ended(Stopped))
      else if answer.Refuse? || !(200 <= answer.status < 300) then To(w, i, Ended(Broken))
      else To(Append(w, path, []), i, Streaming(answer.bytes, todo[1..]))
    case (SeeCancel(_), Streaming(_, _)) => if d.flag in w.raised then To(w, i, Ended(Stopped)) else w
    case (Chunk(_, n), Streaming(body, rest)) =>
      To(Append(w, path, Take(body, n)), i, Streaming(Skip(body, n), rest))
    case (Fail(_), _) => if d.pc.Reserved? || d.pc.Ended? then w else To(w, i, Ended(Broken))
    case (TornWrite(_, n), Streaming(body, _)) => To(Append(w, path, Take(body, n)), i, Ended(Broken))
    case (CleanEnd(_), Streaming(_, rest)) => To(w, i, if d.args.parts.Some? then NextPart(rest) else Fetched)
    case (EnterVerifying(_), Fetched) => To(w.(phase := Verifying), i, Checking)
    case (Verify(_), Checking) =>
      To(w, i, if path in w.part && accepts(w.part[path], d.args.trust) then Checked else Ended(Broken))
    case (Promote(_, renamed), Checked) =>
      if renamed && path in w.part then
        To(w.(model := w.model[path := w.part[path]], part := w.part - {path}), i, Ended(Succeeded))
      else To(w, i, Ended(Broken))
    case (Finish(_), Ended(how)) =>
      w.(phase := match how case Succeeded => Phase.Complete case Stopped => CancelledPhase case Broken => Failed,
         drivers := w.drivers[..i] + w.drivers[i + 1..])
    case _ => w
  }

  /** `start`: refused, or a no-op while a download runs, or a fresh flag and a new driver. */
  function StartStep(w: World, a: Args): World {
    if !a.WellFormed() || Busy(w.phase) then w
    else
      w.(phase := Downloading, flag := w.nextFlag, nextFlag := w.nextFlag + 1,
         drivers := w.drivers + [Driver(a, w.nextFlag, Reserved)], starts := w.starts + {a})
  }

  /** The process dies, possibly in the middle of writing a chunk; a new one starts idle. */
  function CrashStep(w: World, n: nat): World {
    var w1 := if w.drivers != [] && w.drivers[0].pc.Streaming?
              then Append(w, w.drivers[0].args.Path(), Take(w.drivers[0].pc.body, n)) else w;
    w1.(phase := Idle, drivers := [], flag := w.nextFlag, nextFlag := w.nextFlag + 1)
  }

  function Step(w: World, e: Event, accepts: Verifier): World {
    match e
    case Start(a) => StartStep(w, a)
    case Cancel => w.(raised := w.raised + {w.flag})
    case Crash(n) => CrashStep(w, n)
    case _ => if e.i < |w.drivers| then DriverStep(w, e.i, e, accepts) else w
  }

  /** The state after all of `es`. */
  function Run(es: seq<Event>, accepts: Verifier): World {
    if es == [] then INITIAL else Step(Run(es[..|es| - 1], accepts), es[|es| - 1], accepts)
  }

  // --------------------------------------------------- one driver, verified models

  /** The phases a driver's position allows. */
  predicate PhaseFits(p: Phase, pc: Pc) {
    match pc
    case Ended(_) => Busy(p)
    case Checking | Checked => p.Verifying?
    case _ => p.Downloading?
  }

  predicate FromStart(w: World, path: string, content: Bytes, accepts: Verifier) {
    exists a :: a in w.starts && a.Path() == path && accepts(content, a.trust)
  }

  predicate Inv(w: World, accepts: Verifier) {
    && |w.drivers| == (if Busy(w.phase) then 1 else 0)
    && w.flag < w.nextFlag && (forall f :: f in w.raised ==> f < w.nextFlag)
    && (forall p :: p in w.model ==> FromStart(w, p, w.model[p], accepts))
    && (w.drivers != [] ==>
          var d := w.drivers[0];
          && d.flag == w.flag && d.args in w.starts && d.args.WellFormed() && PhaseFits(w.phase, d.pc)
          && (d.pc.Checked? ==> d.args.Path() in w.part && accepts(w.part[d.args.Path()], d.args.trust)))
  }

  /** The opening moves touch only the `.part` file and the driver's own position. */
  lemma BeginFrame(w: World, i: nat, answer: Answer)
    requires i < |w.drivers|
    ensures Moved(w, i, BeginBlob(w, i, answer)) && BeginBlob(w, i, answer).drivers[i].pc != Ended(Stopped)
    ensures forall parts :: Moved(w, i, BeginDelta(w, i, parts)) && BeginDelta(w, i, parts).drivers[i].pc.NextPart?
  {
    hide Decide, Boundary, PartsToFetch;
  }

  predicate Moved(w: World, i: nat, w': World)
    requires i < |w.drivers|
  {
    && |w'.drivers| == |w.drivers|
    && w' == w.(drivers := w.drivers[i := w.drivers[i].(pc := w'.drivers[i].pc)], part := w'.part)
    && var pc := w'.drivers[i].pc; pc.Streaming? || pc.NextPart? || pc.Fetched? || pc.Ended?
  }

  /** Moving the driver among the downloading positions, with other bytes on disk, keeps the invariant. */
  lemma MovedInv(w: World, w': World, accepts: Verifier)
    requires Inv(w, accepts) && |w.drivers| == 1 && Moved(w, 0, w') && PhaseFits(w.phase, w'.drivers[0].pc)
    ensures Inv(w', accepts)
  {
    hide Args.WellFormed, Args.Path;
    SameModels(w, w', accepts);
  }

  lemma DriverStepInv(w: World, i: nat, e: Event, accepts: Verifier)
    requires Inv(w, accepts) && i < |w.drivers|
    ensures Inv(DriverStep(w, i, e, accepts), accepts)
  {
    if e.Begin? || e.Fetch? || e.Chunk? || e.TornWrite? || e.CleanEnd? {
      ByteStepInv(w, e, accepts);
    } else {
      ControlStepInv(w, e, accepts);
    }
  }

  lemma ByteStepInv(w: World, e: Event, accepts: Verifier)
    requires Inv(w, accepts) && |w.drivers| == 1
    requires e.Begin? || e.Fetch? || e.Chunk? || e.TornWrite? || e.CleanEnd?
    ensures Inv(DriverStep(w, 0, e, accepts), accepts)
  {
    hide BeginBlob, BeginDelta, Args.WellFormed, Args.Path, FromStart;
    if e.Begin? { BeginFrame(w, 0, e.answer); }
    var w' := DriverStep(w, 0, e, accepts);
    if w' != w { MovedInv(w, w', accepts); }
  }

  lemma ControlStepInv(w: World, e: Event, accepts: Verifier)
    requires Inv(w, accepts) && |w.drivers| == 1
    requires !e.Begin? && !e.Fetch? && !e.Chunk? && !e.TornWrite? && !e.CleanEnd?
    ensures Inv(DriverStep(w, 0, e, accepts), accepts)
  {
    hide Args.WellFormed, Args.Path;
    var d := w.drivers[0];
    var w' := DriverStep(w, 0, e, accepts);
    forall p | p in w'.model ensures FromStart(w', p, w'.model[p], accepts) {
      if p in w.model && w'.model[p] == w.model[p] {
        assert FromStart(w, p, w.model[p], accepts);
      } else {
        assert p == d.args.Path() && d.args in w'.starts;
      }
    }
  }

  lemma StartStepInv(w: World, a: Args, accepts: Verifier)
    requires Inv(w, accepts)
    ensures Inv(StartStep(w, a), accepts)
  {
    var w' := StartStep(w, a);
    forall p | p in w'.model ensures FromStart(w', p, w'.model[p], accepts) {
      assert FromStart(w, p, w.model[p], accepts);
      var b :| b in w.starts && b.Path() == p && accepts(w.model[p], b.trust);
      assert b in w'.starts;
    }
  }

  lemma StepInv(w: World, e: Event, accepts: Verifier)
    requires Inv(w, accepts)
    ensures Inv(Step(w, e, accepts), accepts)
  {
    hide DriverStep, StartStep;
    match e
    case Start(a) => StartStepInv(w, a, accepts);
    case Cancel => SameModels(w, Step(w, e, accepts), accepts);
    case Crash(n) => SameModels(w, Step(w, e, accepts), accepts);
    case _ => if e.i < |w.drivers| { DriverStepInv(w, e.i, e, accepts); }
  }

  lemma SameModels(w: World, w': World, accepts: Verifier)
    requires Inv(w, accepts) && w'.model == w.model && w'.starts == w.starts
    ensures forall p :: p in w'.model ==> FromStart(w', p, w'.model[p], accepts)
  {
    forall p | p in w'.model ensures FromStart(w', p, w'.model[p], accepts) {
      assert FromStart(w, p, w.model[p], accepts);
    }
  }

  /** Over every interleaving: exactly one driver while the phase is downloading or verifying and none
      otherwise, and every promoted file passed verification for some accepted start of its path. */
  lemma {:induction false} RunInv(es: seq<Event>, accepts: Verifier)
    ensures Inv(Run(es, accepts), accepts)
  {
    hide Inv, Step;
    if es == [] {
      InitialInv(accepts);
    } else {
      RunInv(es[..|es| - 1], accepts);
      StepInv(Run(es[..|es| - 1], accepts), es[|es| - 1], accepts);
    }
  }

  /** With `verify_model` as the verifier: every model file on disk is genuine, digest and signature, by the
      trust data of some accepted start for its path. */
  lemma PromotedPassedVerifyModel<Sig(!new), Key(!new)>(es: seq<Event>, c: Crypto<Sig, Key>, path: string)
    requires path in Run(es, (content, t) => VerifyModel(c, content, t).Accepted?).model
    ensures var w := Run(es, (content, t) => VerifyModel(c, content, t).Accepted?);
            exists a :: a in w.starts && a.Path() == path && Genuine(c, w.model[path], a.trust)
  {
    hide Run, VerifyModel, Genuine;
    var accepts: Verifier := (content, t) => VerifyModel(c, content, t).Accepted?;
    RunInv(es, accepts);
    var w := Run(es, accepts);
    assert FromStart(w, path, w.model[path], accepts);
    var a :| a in w.starts && a.Path() == path && accepts(w.model[path], a.trust);
    VerifyModelExact(c, w.model[path], a.trust);
  }

  /** A download continues where the file on disk ends: what a partial answer brings is appended to it, and
      a file that is all there is not fetched again, whatever the server would say. */
  lemma ResumesWhereItEnds(w: World, i: nat, answer: Answer, accepts: Verifier)
    requires i < |w.drivers| && w.drivers[i].pc.Begun? && w.drivers[i].args.parts.None?
    requires w.drivers[i].args.Path() !in w.model && w.drivers[i].args.total.Some?
    requires 0 < |OnDisk(w, w.drivers[i].args.Path())| <= w.drivers[i].args.total.value
    ensures var a, w' := w.drivers[i].args, Step(w, Begin(i, answer), accepts);
            && OnDisk(w', a.Path()) == (if Refetched(w, a, answer) then [] else OnDisk(w, a.Path()))
            && (|OnDisk(w, a.Path())| == a.total.value ==> w'.drivers[i].pc == Fetched)
            && (|OnDisk(w, a.Path())| < a.total.value ==> Asked(w, a) == |OnDisk(w, a.Path())|)
            && (|OnDisk(w, a.Path())| < a.total.value && answer.Body? && answer.status in {200, 206} ==>
                  w'.drivers[i].pc == Streaming(answer.bytes, []))
  {
  }

  /** The server ignored the range and sends everything. */
  predicate Refetched(w: World, a: Args, answer: Answer) {
    a.total.Some? && |OnDisk(w, a.Path())| < a.total.value && answer.Body? && answer.status == 200
  }

  lemma InitialInv(accepts: Verifier)
    ensures Inv(INITIAL, accepts)
  {
  }

  // ------------------------------------------------------------- no stray cancel

  /** The only step that raises a flag is a cancel, and it raises the one current flag. */
  lemma RaisedBy(w: World, e: Event, accepts: Verifier, f: nat)
    requires f !in w.raised && f in Step(w, e, accepts).raised
    ensures e.Cancel? && f == w.flag
  {
  }

  /** A start that is accepted takes a flag no cancel has touched, and touches no other. */
  lemma StartIsClean(es: seq<Event>, a: Args, accepts: Verifier)
    requires var w := Run(es, accepts); a.WellFormed() && !Busy(w.phase)
    ensures var w := Run(es, accepts); var w' := Step(w, Start(a), accepts);
            && w'.flag !in w'.raised && w'.raised == w.raised && w'.flag != w.flag
            && |w'.drivers| == 1 && w'.drivers[0].flag == w'.flag
  {
    RunInv(es, accepts);
  }

  /** Whoever sees a raised flag was cancelled by a cancel issued while that very flag was current,
      that is, after the start that made it. */
  lemma {:induction false} CancelHasCause(es: seq<Event>, accepts: Verifier, f: nat) returns (j: nat)
    requires f in Run(es, accepts).raised
    ensures j < |es| && es[j].Cancel? && Run(es[..j], accepts).flag == f
  {
    hide Step;
    var before := es[..|es| - 1];
    var w := Run(before, accepts);
    if f in w.raised {
      j := CancelHasCause(before, accepts, f);
      assert before[..j] == es[..j];
    } else {
      RaisedBy(w, es[|es| - 1], accepts, f);
      j := |es| - 1;
    }
  }

  /** A driver only ever stops as cancelled when its own flag was raised. */
  lemma StopsOnOwnFlag(es: seq<Event>, e: Event, accepts: Verifier)
    requires var w := Run(es, accepts); w.drivers != [] && !w.drivers[0].pc.Ended?
    requires var w' := Run(es + [e], accepts); w'.drivers != [] && w'.drivers[0].pc == Ended(Stopped)
    ensures var w := Run(es, accepts); w.drivers[0].flag == w.flag && w.flag in w.raised
  {
    hide BeginBlob, BeginDelta, Args.WellFormed;
    RunInv(es, accepts);
    assert (es + [e])[..|es|] == es;
    if e.Begin? && e.i == 0 { BeginFrame(Run(es, accepts), 0, e.answer); }
  }

  // ------------------------------------------------------ resume over whole runs

  /** The one content each path stands for. */
  type Source = string -> Bytes

  ghost predicate Describes(a: Args, src: Source) {
    var F := src(a.Path());
    |F| < U64 - 1 && (a.total.Some? ==> a.total.value == |F|) && (a.parts.Some? ==> a.Total() == |F|)
  }

  /** The environment's side: starts describe the source, servers serve it, and a body that ends
      cleanly was complete. */
  ghost predicate Fair(w: World, e: Event, src: Source) {
    match e
    case Start(a) => Describes(a, src)
    case Begin(i, Body(status, bytes)) =>
      i < |w.drivers| ==>
        var a := w.drivers[i].args;
        var F := src(a.Path());
        && (status == 200 ==> bytes == F)
        && (status == 206 && Asked(w, a) <= |F| ==> bytes == F[Asked(w, a)..])
    case Fetch(i, Body(status, bytes)) =>
      i < |w.drivers| && w.drivers[i].pc.NextPart? && w.drivers[i].pc.todo != [] && 200 <= status < 300 ==>
        var p := w.drivers[i].pc.todo[0];
        p.End() <= |src(w.drivers[i].args.Path())| ==> bytes == Slice(src(w.drivers[i].args.Path()), p)
    case CleanEnd(i) => i < |w.drivers| && w.drivers[i].pc.Streaming? ==> w.drivers[i].pc.body == []
    case _ => true
  }

  /** What the driver's position says about its `.part` file. */
  ghost predicate Placed(content: Bytes, pc: Pc, delta: bool, F: Bytes) {
    match pc
    case Streaming(body, rest) =>
      if delta then exists at: nat :: at <= |F| && content + body == F[..at] && TilesFrom(rest, at, |F|)
      else content + body == F
    case NextPart(todo) => delta && |content| <= |F| && content == F[..|content|] && TilesFrom(todo, |content|, |F|)
    case Fetched | Checking | Checked => content == F
    case _ => true
  }

  ghost predicate OnSource(w: World, src: Source) {
    && (forall p :: p in w.part ==> w.part[p] <= src(p))
    && (forall p :: p in w.model ==> w.model[p] == src(p))
    && (w.drivers != [] ==>
          var d := w.drivers[0];
          Describes(d.args, src) &&
          Placed(OnDisk(w, d.args.Path()), d.pc, d.args.parts.Some?, src(d.args.Path())))
  }

  lemma BeginBlobOnSource(w: World, answer: Answer, accepts: Verifier, src: Source)
    requires Inv(w, accepts) && OnSource(w, src) && |w.drivers| == 1
    requires w.drivers[0].pc.Begun? && w.drivers[0].args.parts.None? && Fair(w, Begin(0, answer), src)
    ensures OnSource(BeginBlob(w, 0, answer), src)
  {
    var a := w.drivers[0].args;
    var F := src(a.Path());
    var have := OnDisk(w, a.Path());
    assert have <= F;
    if answer.Body? {
      var asked := Asked(w, a);
      assert asked <= |F| && (asked == 0 || asked == |have|);
      KeptAndRest(have, F, asked, answer);
    }
  }

  lemma KeptAndRest(have: Bytes, F: Bytes, asked: nat, answer: Answer)
    requires have <= F && asked <= |F| && (asked == 0 || asked == |have|) && answer.Body?
    requires (answer.status == 200 ==> answer.bytes == F) && (answer.status == 206 ==> answer.bytes == F[asked..])
    ensures var kept := if asked > 0 && answer.status == 206 then have else [];
            answer.status == 200 || answer.status == 206 ==> kept + answer.bytes == F && kept <= F
  {
    assert F == F[..asked] + F[asked..];
  }

  lemma BeginDeltaOnSource(w: World, accepts: Verifier, src: Source)
    requires Inv(w, accepts) && OnSource(w, src) && |w.drivers| == 1
    requires w.drivers[0].pc.Begun? && w.drivers[0].args.parts.Some?
    ensures OnSource(BeginDelta(w, 0, w.drivers[0].args.parts.value), src)
  {
    var a := w.drivers[0].args;
    var F := src(a.Path());
    var have := OnDisk(w, a.Path());
    assert have <= F;
    var k := DeltaPlan(a.parts.value, 0, |F|, |have|);
    var b := Boundary(a.parts.value, |have|);
    assert Take(have, b) == F[..b];
    assert b == 0 ==> F[..b] == [];
  }

  lemma StreamOnSource(w: World, n: nat, accepts: Verifier, src: Source)
    requires Inv(w, accepts) && OnSource(w, src) && |w.drivers| == 1 && w.drivers[0].pc.Streaming?
    ensures var d := w.drivers[0];
            var w1 := Append(w, d.args.Path(), Take(d.pc.body, n));
            && OnDisk(w1, d.args.Path()) <= src(d.args.Path())
            && Placed(OnDisk(w1, d.args.Path()), Streaming(Skip(d.pc.body, n), d.pc.rest),
                      d.args.parts.Some?, src(d.args.Path()))
  {
    var d := w.drivers[0];
    var content := OnDisk(w, d.args.Path());
    var body := d.pc.body;
    assert Take(body, n) + Skip(body, n) == body;
    Assoc(content, Take(body, n), Skip(body, n));
    var F := src(d.args.Path());
    if d.args.parts.Some? {
      var at: nat :| at <= |F| && content + body == F[..at] && TilesFrom(d.pc.rest, at, |F|);
      assert content + Take(body, n) + Skip(body, n) == F[..at];
      assert content + Take(body, n) <= F[..at] <= F;
    }
  }

  /** The next part's bytes carry the file from one part boundary to the next. */
  lemma PartExtends(content: Bytes, todo: seq<Part>, F: Bytes)
    requires |content| <= |F| && content == F[..|content|] && todo != [] && TilesFrom(todo, |content|, |F|)
    ensures var p := todo[0];
            p.End() <= |F| && content + Slice(F, p) == F[..p.End()] && TilesFrom(todo[1..], p.End(), |F|)
  {
    TilesBounds(todo, |content|, |F|);
    Glue(F, todo[0].offset, todo[0].End());
  }

  lemma Glue(F: Bytes, a: nat, b: nat)
    requires a <= b <= |F|
    ensures F[..a] + F[a..b] == F[..b]
  {
  }

  lemma FetchOnSource(w: World, answer: Answer, accepts: Verifier, src: Source)
    requires Inv(w, accepts) && OnSource(w, src) && |w.drivers| == 1 && w.drivers[0].pc.NextPart?
    requires Fair(w, Fetch(0, answer), src)
    ensures OnSource(DriverStep(w, 0, Fetch(0, answer), accepts), src)
  {
    hide Inv, Args.Path, Describes, TilesFrom;
    var d := w.drivers[0];
    var F := src(d.args.Path());
    var content := OnDisk(w, d.args.Path());
    if d.pc.todo == [] {
      NoneLeft(content, F);
    } else {
      PartExtends(content, d.pc.todo, F);
      assert content + [] == content;
    }
  }

  lemma NoneLeft(content: Bytes, F: Bytes)
    requires |content| <= |F| && content == F[..|content|] && TilesFrom([], |content|, |F|)
    ensures content == F
  {
    assert F[..|F|] == F;
  }

  lemma CleanEndOnSource(w: World, accepts: Verifier, src: Source)
    requires Inv(w, accepts) && OnSource(w, src) && |w.drivers| == 1 && w.drivers[0].pc.Streaming?
    requires w.drivers[0].pc.body == []
    ensures OnSource(DriverStep(w, 0, CleanEnd(0), accepts), src)
  {
    var d := w.drivers[0];
    var F := src(d.args.Path());
    var content := OnDisk(w, d.args.Path());
    assert content + [] == content;
    if d.args.parts.Some? {
      var at: nat :| at <= |F| && content + d.pc.body == F[..at] && TilesFrom(d.pc.rest, at, |F|);
      assert |content| == at;
    }
  }

  /** Steps that neither plan nor receive bytes. */
  predicate Quiet(e: Event) {
    e.Spawn? || e.SeeCancel? || e.Fail? || e.EnterVerifying? || e.Verify? || e.Promote? || e.Finish?
  }

  lemma QuietOnSource(w: World, e: Event, accepts: Verifier, src: Source)
    requires OnSource(w, src) && |w.drivers| == 1 && Quiet(e) && e.i == 0
    ensures OnSource(DriverStep(w, 0, e, accepts), src)
  {
    hide Args.Path, Describes, TilesFrom;
  }

  lemma BeginOnSource(w: World, answer: Answer, accepts: Verifier, src: Source)
    requires Inv(w, accepts) && OnSource(w, src) && |w.drivers| == 1 && Fair(w, Begin(0, answer), src)
    ensures OnSource(DriverStep(w, 0, Begin(0, answer), accepts), src)
  {
    hide Inv, Fair, BeginBlob, BeginDelta, Args.Path, Describes, TilesFrom;
    var d := w.drivers[0];
    if d.pc.Begun? {
      if d.args.parts.Some? { BeginDeltaOnSource(w, accepts, src); }
      else { BeginBlobOnSource(w, answer, accepts, src); }
    }
  }

  lemma ReceiveOnSource(w: World, e: Event, accepts: Verifier, src: Source)
    requires Inv(w, accepts) && OnSource(w, src) && |w.drivers| == 1 && (e.Chunk? || e.TornWrite?) && e.i == 0
    ensures OnSource(DriverStep(w, 0, e, accepts), src)
  {
    hide Inv, Args.Path, Describes, TilesFrom;
    if w.drivers[0].pc.Streaming? { StreamOnSource(w, e.n, accepts, src); }
  }

  lemma DriverStepOnSource(w: World, e: Event, accepts: Verifier, src: Source)
    requires Inv(w, accepts) && OnSource(w, src) && |w.drivers| == 1 && Fair(w, e, src)
    requires !e.Start? && !e.Cancel? && !e.Crash? && e.i == 0
    ensures OnSource(DriverStep(w, 0, e, accepts), src)
  {
    hide Inv, OnSource, BeginBlob, BeginDelta;
    var d := w.drivers[0];
    match e
    case Begin(_, answer) => BeginOnSource(w, answer, accepts, src);
    case Fetch(_, answer) => if d.pc.NextPart? { FetchOnSource(w, answer, accepts, src); }
    case Chunk(_, _) => ReceiveOnSource(w, e, accepts, src);
    case TornWrite(_, _) => ReceiveOnSource(w, e, accepts, src);
    case CleanEnd(_) => if d.pc.Streaming? { CleanEndOnSource(w, accepts, src); }
    case _ => QuietOnSource(w, e, accepts, src);
  }

  lemma StepOnSource(w: World, e: Event, accepts: Verifier, src: Source)
    requires Inv(w, accepts) && OnSource(w, src) && Fair(w, e, src)
    ensures OnSource(Step(w, e, accepts), src)
  {
    hide DriverStep, Args.Path, TilesFrom;
    match e
    case Start(a) =>
    case Cancel =>
    case Crash(n) => if w.drivers != [] && w.drivers[0].pc.Streaming? { StreamOnSource(w, n, accepts, src); }
    case _ => if e.i < |w.drivers| { DriverStepOnSource(w, e, accepts, src); }
  }

  ghost predicate FairRun(es: seq<Event>, accepts: Verifier, src: Source) {
    forall j :: 0 <= j < |es| ==> Fair(Run(es[..j], accepts), es[j], src)
  }

  /** Resume safety over every fair run of starts, cancels, crashes, drops, answers and mode switches:
      every `.part` is a prefix of its source, a driver whose stream has finished has exactly the source
      on disk, and every promoted model is its source. */
  lemma {:induction false} RunOnSource(es: seq<Event>, accepts: Verifier, src: Source)
    requires FairRun(es, accepts, src)
    ensures OnSource(Run(es, accepts), src)
  {
    hide Inv, OnSource, Fair, Step;
    if es == [] {
      InitialOnSource(src);
    } else {
      var before := es[..|es| - 1];
      forall j | 0 <= j < |before| ensures Fair(Run(before[..j], accepts), before[j], src) {
        assert before[..j] == es[..j];
      }
      RunOnSource(before, accepts, src);
      RunInv(before, accepts);
      StepOnSource(Run(before, accepts), es[|es| - 1], accepts, src);
    }
  }

  lemma InitialOnSource(src: Source)
    ensures OnSource(INITIAL, src)
  {
  }

  // ------------------------------------------------------- the manager's own state

  /** One cancel flag, shared between the manager and a driver. */
  class CancelFlag {
    var raised: bool
    ghost const id: nat

    constructor (ghost id: nat)
      ensures !raised && this.id == id
    {
      raised := false;
      this.id := id;
    }
  }

  /** The mutex-held part of the manager: each method is one critical section, and takes the step of the
      protocol that it stands for. */
  class DownloadManager {
    var phase: Phase
    var cancel: CancelFlag
    ghost const accepts: Verifier
    ghost var world: World

    /** The shared fields are the protocol's, and no flag yet to be made has been raised. */
    ghost predicate Valid()
      reads this, cancel
    {
      && phase == world.phase && cancel.id == world.flag < world.nextFlag
      && (cancel.raised <==> world.flag in world.raised)
      && forall f :: f in world.raised ==> f < world.nextFlag
    }

    constructor (ghost accepts: Verifier)
      ensures Valid() && world == INITIAL && this.accepts == accepts && fresh(cancel)
    {
      phase := Idle;
      cancel := new CancelFlag(0);
      world := INITIAL;
      this.accepts := accepts;
    }

    /** `cancel`: raises the current flag and no other. */
    method Cancel()
      requires Valid()
      modifies this`world, cancel
      ensures Valid() && world == Step(old(world), Event.Cancel, accepts) && cancel.raised
    {
      cancel.raised := true;
      world := Step(world, Event.Cancel, accepts);
    }

    /** The first half of `start`: refused, ignored while busy, or a fresh flag and a new phase. */
    method Reserve(args: Args) returns (accepted: bool)
      requires Valid()
      modifies this
      ensures Valid() && world == Step(old(world), Start(args), accepts)
      ensures accepted <==> args.WellFormed() && !Busy(old(phase))
      ensures accepted ==> phase == Downloading && fresh(cancel) && !cancel.raised
      ensures !accepted ==> phase == old(phase) && cancel == old(cancel)
    {
      ghost var next := Step(world, Start(args), accepts);
      if args.parts.Some? {
        var ok := ValidateParts(args.parts.value, args.Total());
        if !ok {
          return false;
        }
      }
      if phase.Downloading? || phase.Verifying? {
        return false;
      }
      cancel := new CancelFlag(world.nextFlag);
      phase := Downloading;
      world := next;
      return true;
    }

    method EnterVerifying(ghost i: nat)
      requires Valid() && i < |world.drivers| && world.drivers[i].pc.Fetched?
      modifies this`phase, this`world
      ensures Valid() && world == Step(old(world), Event.EnterVerifying(i), accepts) && phase == Verifying
    {
      phase := Verifying;
      world := Step(world, Event.EnterVerifying(i), accepts);
    }

    /** `finish` records how the driver ended. */
    method Finish(ghost i: nat, how: Ending)
      requires Valid() && i < |world.drivers| && world.drivers[i].pc == Ended(how)
      modifies this`phase, this`world
      ensures Valid() && world == Step(old(world), Event.Finish(i), accepts) && !Busy(phase)
      ensures phase == match how case Succeeded => Phase.Complete case Stopped => CancelledPhase case Broken => Failed
    {
      match how {
        case Succeeded => phase := Phase.Complete;
        case Stopped => phase := CancelledPhase;
        case Broken => phase := Failed;
      }
      world := Step(world, Event.Finish(i), accepts);
    }
  }
}
