/** One run of the model downloader (`downloader.rs`): resume arithmetic, delta planning, the append
    loop, and promotion after verification, over a `.part` file the run updates in place. */
module Download {
  import opened Text

  const U64: int := 0x1_0000_0000_0000_0000

  // ------------------------------------------------------------ resume decision

  datatype ResumeDecision = Fresh | Resume(offset: nat) | Complete | Restart

  function Decide(local: nat, total: nat): ResumeDecision {
    if total == 0 || local == 0 then Fresh
    else if local == total then Complete
    else if local < total then Resume(local)
    else Restart
  }

  // ---------------------------------------------------------------- delta parts

  datatype Part = Part(path: string, offset: nat, size: nat) {
    function End(): nat { offset + size }
  }

  /** The parts follow one another from `cursor` and end at `total`, within 64 bits. */
  predicate TilesFrom(parts: seq<Part>, cursor: nat, total: nat) {
    if parts == [] then cursor == total
    else parts[0].offset == cursor && parts[0].End() < U64 && TilesFrom(parts[1..], parts[0].End(), total)
  }

  predicate Tiles(parts: seq<Part>, total: nat) { parts != [] && TilesFrom(parts, 0, total) }

  method ValidateParts(parts: seq<Part>, total: nat) returns (ok: bool)
    ensures ok <==> Tiles(parts, total)
  {
    if parts == [] {
      return false;
    }
    var cursor: nat := 0;
    for i := 0 to |parts|
      invariant TilesFrom(parts, 0, total) <==> TilesFrom(parts[i..], cursor, total)
    {
      var p := parts[i];
      assert parts[i..][1..] == parts[i + 1..];
      if p.offset != cursor {
        return false;
      }
      if p.offset + p.size >= U64 {
        return false;
      }
      cursor := p.offset + p.size;
    }
    return cursor == total;
  }

  function PartsToFetch(parts: seq<Part>, have: nat): seq<Part> {
    if parts == [] then []
    else if parts[0].End() > have then [parts[0]] + PartsToFetch(parts[1..], have)
    else PartsToFetch(parts[1..], have)
  }

  function BoundaryFrom(parts: seq<Part>, have: nat, boundary: nat): nat {
    if parts == [] || parts[0].End() > have then boundary
    else BoundaryFrom(parts[1..], have, parts[0].End())
  }

  function Boundary(parts: seq<Part>, have: nat): nat { BoundaryFrom(parts, have, 0) }

  method PartResumeBoundary(parts: seq<Part>, have: nat) returns (boundary: nat)
    ensures boundary == Boundary(parts, have)
  {
    boundary := 0;
    for i := 0 to |parts|
      invariant Boundary(parts, have) == BoundaryFrom(parts[i..], have, boundary)
    {
      var end := parts[i].offset + parts[i].size;
      assert parts[i..][1..] == parts[i + 1..];
      if end <= have {
        boundary := end;
      } else {
        break;
      }
    }
  }

  function SizeSum(parts: seq<Part>): nat {
    if parts == [] then 0 else parts[0].size + SizeSum(parts[1..])
  }

  predicate Holds(p: Part, x: nat) { p.offset <= x < p.End() }

  /** Each position below `total` lies in exactly one part. */
  lemma {:induction false} TilesCover(parts: seq<Part>, cursor: nat, total: nat, x: nat) returns (i: nat)
    requires TilesFrom(parts, cursor, total) && cursor <= x < total
    ensures i < |parts| && forall j :: 0 <= j < |parts| ==> (Holds(parts[j], x) <==> j == i)
  {
    var tail := parts[1..];
    assert forall j :: 0 < j < |parts| ==> parts[j] == tail[j - 1];
    TilesBounds(tail, parts[0].End(), total);
    if x < parts[0].End() {
      i := 0;
    } else {
      i := TilesCover(tail, parts[0].End(), total, x);
      i := i + 1;
    }
  }

  lemma {:induction false} TilesBounds(parts: seq<Part>, cursor: nat, total: nat)
    requires TilesFrom(parts, cursor, total)
    ensures cursor <= total && SizeSum(parts) == total - cursor
    ensures forall i :: 0 <= i < |parts| ==> cursor <= parts[i].offset && parts[i].End() <= total
  {
    if parts != [] { TilesBounds(parts[1..], parts[0].End(), total); }
  }

  /** The delta plan from any amount on disk: the boundary is the largest part end not beyond it, and
      what is fetched is exactly the contiguous suffix of parts from there, of total size total - boundary. */
  lemma {:induction false} DeltaPlan(parts: seq<Part>, cursor: nat, total: nat, have: nat) returns (k: nat)
    requires TilesFrom(parts, cursor, total) && cursor <= have
    ensures k <= |parts|
    ensures var b := BoundaryFrom(parts, have, cursor);
            && cursor <= b <= have && b <= total
            && (forall i :: 0 <= i < k ==> parts[i].End() <= b)
            && (forall i :: k <= i < |parts| ==> parts[i].End() > have)
            && TilesFrom(parts[k..], b, total) && SizeSum(parts[k..]) == total - b
            && PartsToFetch(parts, b) == parts[k..]
            && (b == cursor || exists i :: 0 <= i < k && parts[i].End() == b)
  {
    TilesBounds(parts, cursor, total);
    if parts == [] {
      k := 0;
    } else if parts[0].End() > have {
      k := 0;
      TilesBounds(parts[1..], parts[0].End(), total);
      assert forall i :: 0 < i < |parts| ==> parts[i] == parts[1..][i - 1];
      AllFetched(parts, have, cursor);
    } else {
      k := DeltaPlan(parts[1..], parts[0].End(), total, have);
      k := k + 1;
      assert parts[k..] == parts[1..][k - 1..];
      assert forall i :: 0 < i < |parts| ==> parts[i] == parts[1..][i - 1];
      assert parts[0].End() <= BoundaryFrom(parts, have, cursor);
    }
  }

  lemma {:induction false} AllFetched(parts: seq<Part>, have: nat, b: nat)
    requires b <= have && forall i :: 0 <= i < |parts| ==> parts[i].End() > have
    ensures PartsToFetch(parts, b) == parts
  {
    if parts != [] { AllFetched(parts[1..], have, b); }
  }

  // --------------------------------------------------------- the `.part` file

  class PartFile {
    var data: Option<Bytes>

    function Content(): Bytes
      reads this
    {
      if data.Some? then data.value else []
    }

    method Remove()
      modifies this
      ensures data == None
    {
      data := None;
    }

    method Append(chunk: Bytes)
      modifies this
      ensures data == Some(old(Content()) + chunk)
    {
      data := Some(Content() + chunk);
    }

    /** `truncate_to`: no file is left for length zero; a shorter file is left alone. */
    method TruncateTo(len: nat)
      modifies this
      ensures Content() == if |old(Content())| > len then old(Content())[..len] else old(Content())
      ensures len == 0 ==> data == None
    {
      if len == 0 {
        Remove();
      } else if |Content()| > len {
        data := Some(Content()[..len]);
      }
    }
  }

  // -------------------------------------------------------------- the append loop

  /** What one read of the response body yields; a torn write stops part-way through its chunk. */
  datatype Read = Data(bytes: Bytes) | Dropped | Torn(bytes: Bytes, written: nat) | EndOfBody

  /** One turn of the loop: the cancel flag as observed, then the read. A list of polls that just ends
      is the process dying there. */
  datatype Poll = Poll(cancelled: bool, read: Read)

  datatype Outcome = Done | Cancelled | NetworkError | IoError | Crashed | BadStatus | DisallowedUrl | BadManifest

  function Streamed(polls: seq<Poll>): (r: (Bytes, Outcome))
  {
    if polls == [] then ([], Crashed)
    else if polls[0].cancelled then ([], Cancelled)
    else
      match polls[0].read
      case Data(b) => (b + Streamed(polls[1..]).0, Streamed(polls[1..]).1)
      case Dropped => ([], NetworkError)
      case Torn(b, n) => (if n <= |b| then b[..n] else b, IoError)
      case EndOfBody => ([], Done)
  }

  /** The reads that go through, one after the other. */
  function Delivered(polls: seq<Poll>): Bytes {
    if polls == [] || !polls[0].read.Data? then [] else polls[0].read.bytes + Delivered(polls[1..])
  }

  /** What a poll that stops the loop leaves in the file, and why it stops: the flag was raised, the
      connection dropped, the write was torn part-way, or the body ended. */
  predicate StopsWith(poll: Poll, left: Bytes, why: Outcome) {
    if poll.cancelled then left == [] && why == Cancelled
    else
      match poll.read
      case Data(_) => false
      case Dropped => left == [] && why == NetworkError
      case Torn(b, n) => left <= b && |left| == (if n <= |b| then n else |b|) && why == IoError
      case EndOfBody => left == [] && why == Done
  }

  /** The loop delivers the reads before the first that stops it, whole and in order, then what that one
      leaves; if none stops it, the process died. */
  lemma {:induction false} StreamedExact(polls: seq<Poll>) returns (k: nat, left: Bytes)
    ensures k <= |polls| && forall j :: 0 <= j < k ==> !polls[j].cancelled && polls[j].read.Data?
    ensures Streamed(polls).0 == Delivered(polls[..k]) + left
    ensures if k == |polls| then left == [] && Streamed(polls).1 == Crashed
            else StopsWith(polls[k], left, Streamed(polls).1)
  {
    k, left := 0, Streamed(polls).0;
    assert polls[..0] == [] && [] + left == left;
    if polls != [] && !polls[0].cancelled && polls[0].read.Data? {
      k, left := StreamedExact(polls[1..]);
      var later := polls[1..][..k];
      assert polls[..k + 1][0] == polls[0] && polls[..k + 1][1..] == later;
      assert k < |polls[1..]| ==> polls[1..][k] == polls[k + 1];
      Assoc(polls[0].read.bytes, Delivered(later), left);
      assert forall j :: 0 < j < k + 1 ==> polls[j] == polls[1..][j - 1];
      k := k + 1;
    }
  }

  method StreamAppend(file: PartFile, polls: seq<Poll>) returns (outcome: Outcome)
    modifies file
    ensures file.Content() == old(file.Content()) + Streamed(polls).0 && outcome == Streamed(polls).1
  {
    ghost var start := file.Content();
    for i := 0 to |polls|
      invariant start + Streamed(polls).0 == file.Content() + Streamed(polls[i..]).0
      invariant Streamed(polls).1 == Streamed(polls[i..]).1
    {
      assert polls[i..][1..] == polls[i + 1..];
      if polls[i].cancelled {
        return Cancelled;
      }
      match polls[i].read {
        case Data(chunk) =>
          Assoc(file.Content(), chunk, Streamed(polls[i + 1..]).0);
          file.Append(chunk);
        case Dropped => return NetworkError;
        case Torn(chunk, written) =>
          file.Append(if written <= |chunk| then chunk[..written] else chunk);
          return IoError;
        case EndOfBody => return Done;
      }
    }
    return Crashed;
  }

  lemma Assoc(a: Bytes, b: Bytes, c: Bytes)
    ensures a + (b + c) == a + b + c
  {
  }

  /** The reads deliver `body` in order, and end cleanly only when all of it has been delivered. */
  predicate Delivers(polls: seq<Poll>, body: Bytes) {
    polls == [] ||
    match polls[0].read
    case Data(b) => b <= body && Delivers(polls[1..], body[|b|..])
    case Torn(b, _) => b <= body
    case Dropped => true
    case EndOfBody => body == []
  }

  lemma {:induction false} StreamedDelivers(polls: seq<Poll>, body: Bytes)
    requires Delivers(polls, body)
    ensures Streamed(polls).0 <= body && (Streamed(polls).1 == Done ==> Streamed(polls).0 == body)
  {
    if polls != [] && !polls[0].cancelled && polls[0].read.Data? {
      var b := polls[0].read.bytes;
      StreamedDelivers(polls[1..], body[|b|..]);
      assert body == b + body[|b|..];
    }
  }

  // -------------------------------------------------------------------- the blob

  /** The offset a blob request asks for, if a request is made; an unknown size is `u64::MAX`. */
  function Request(have: nat, total: Option<nat>): Option<nat> {
    match Decide(have, if total.Some? then total.value else U64 - 1)
    case Complete => None
    case Resume(offset) => Some(offset)
    case _ => Some(0)
  }

  /** A file that may be the beginning of the whole is continued from its end, one that is all there is not
      asked for, and any other is fetched anew. */
  lemma RequestsTheRest(have: nat, total: Option<nat>)
    requires total.None? ==> have < U64 - 1
    ensures Request(have, total) == None <==> 0 < have && total == Some(have)
    ensures Request(have, total) == Some(have) <==> have == 0 || total.None? || have < total.value
    ensures Request(have, total) in {None, Some(have), Some(0)}
  {
  }

  /** A request's answer: the guard or the transport refusing, or a status and a body. */
  datatype Reply = Rejected | NoReply | Reply(status: nat, polls: seq<Poll>)

  /** A server of the file `F`: a 200 carries all of it, a 206 what follows the offset asked for. */
  ghost predicate Serves(server: nat -> Reply, F: Bytes) {
    forall offset: nat :: offset <= |F| && server(offset).Reply? ==>
      && (server(offset).status == 200 ==> Delivers(server(offset).polls, F))
      && (server(offset).status == 206 ==> Delivers(server(offset).polls, F[offset..]))
  }

  /** Single-blob path. On a server of `F`, from any prefix of `F`, the file stays a prefix of `F`,
      and a finished stream leaves exactly `F`. */
  method DownloadBlob(file: PartFile, total: Option<nat>, server: nat -> Reply, ghost F: Bytes)
      returns (outcome: Outcome, asked: Option<nat>)
    requires |F| < U64 - 1
    modifies file
    ensures asked == Request(|old(file.Content())|, total)
    ensures old(file.Content()) <= F && (total.Some? ==> total.value == |F|) && Serves(server, F) ==>
              file.Content() <= F && (outcome == Done ==> file.Content() == F)
  {
    ghost var before := file.Content();
    var local := |file.Content()|;
    var offset: nat;
    match Decide(local, if total.Some? then total.value else U64 - 1) {
      case Complete => return Done, None;
      case Resume(o) => offset := o;
      case Restart =>
        file.Remove();
        offset := 0;
      case Fresh => offset := 0;
    }
    asked := Some(offset);
    var reply := server(offset);
    match reply {
      case Rejected => return DisallowedUrl, asked;
      case NoReply => return NetworkError, asked;
      case Reply(status, polls) =>
        if !(status == 200 || status == 206) {
          return BadStatus, asked;
        }
        if offset > 0 && status == 200 {
          offset := 0;
        }
        if offset == 0 {
          file.Remove();
        }
        outcome := StreamAppend(file, polls);
        if before <= F && (total.Some? ==> total.value == |F|) && Serves(server, F) {
          BlobBody(before, F, asked.value, status, polls, server);
        }
    }
  }

  lemma BlobBody(before: Bytes, F: Bytes, asked: nat, status: nat, polls: seq<Poll>, server: nat -> Reply)
    requires before <= F && (asked == 0 || asked == |before|) && Serves(server, F)
    requires server(asked) == Reply(status, polls) && (status == 200 || status == 206)
    ensures var kept := if asked > 0 && status == 206 then before else [];
            var r := Streamed(polls);
            kept + r.0 <= F && (r.1 == Done ==> kept + r.0 == F)
  {
    assert asked <= |F|;
    var body := if status == 200 then F else F[asked..];
    assert asked == 0 ==> F[asked..] == F;
    StreamedDelivers(polls, body);
    if asked > 0 && status == 206 { assert F == before + body; }
  }

  // ------------------------------------------------------------------ the delta

  function Slice(F: Bytes, p: Part): Bytes
    requires p.End() <= |F|
  {
    F[p.offset..p.End()]
  }

  /** Part answers: a cancel seen before the request, or a reply whose body is the part's bytes. */
  datatype PartReply = CancelledBefore | Answer(reply: Reply)

  ghost predicate ServesParts(fetch: Part -> PartReply, F: Bytes) {
    forall p: Part :: p.End() <= |F| && fetch(p).Answer? && fetch(p).reply.Reply? ==>
      200 <= fetch(p).reply.status < 300 ==> Delivers(fetch(p).reply.polls, Slice(F, p))
  }

  /** Delta path: truncate to a part boundary, then fetch and append the parts still needed. */
  method DownloadDelta(file: PartFile, parts: seq<Part>, total: nat, fetch: Part -> PartReply, ghost F: Bytes)
    returns (outcome: Outcome)
    modifies file
    ensures !Tiles(parts, total) ==> outcome == BadManifest && file.data == old(file.data)
    ensures old(file.Content()) <= F && total == |F| && Tiles(parts, total) && ServesParts(fetch, F) ==>
              file.Content() <= F && (outcome == Done ==> file.Content() == F)
  {
    hide Delivers, Streamed;
    var ok := ValidateParts(parts, total);
    if !ok {
      return BadManifest;
    }
    ghost var fair := file.Content() <= F && total == |F| && ServesParts(fetch, F);
    var have := |file.Content()|;
    var boundary := PartResumeBoundary(parts, have);
    ghost var k := DeltaPlan(parts, 0, total, have);
    file.TruncateTo(boundary);
    var todo := PartsToFetch(parts, boundary);
    ghost var at: nat := boundary;
    for i := 0 to |todo|
      invariant TilesFrom(todo[i..], at, total)
      invariant fair ==> at <= |F| && file.Content() == F[..at]
    {
      var p := todo[i];
      assert todo[i..][0] == p && todo[i..][1..] == todo[i + 1..];
      TilesBounds(todo[i..], at, total);
      match fetch(p) {
        case CancelledBefore => return Cancelled;
        case Answer(reply) =>
          match reply {
            case Rejected => return DisallowedUrl;
            case NoReply => return NetworkError;
            case Reply(status, polls) =>
              if !(200 <= status < 300) {
                return BadStatus;
              }
              var r := StreamAppend(file, polls);
              if fair { PartBody(F, p, polls); }
              if r != Done {
                return r;
              }
              at := p.End();
          }
      }
    }
    return Done;
  }

  lemma PartBody(F: Bytes, p: Part, polls: seq<Poll>)
    requires p.End() <= |F| && Delivers(polls, Slice(F, p))
    ensures var r := Streamed(polls); F[..p.offset] + r.0 <= F && (r.1 == Done ==> F[..p.offset] + r.0 == F[..p.End()])
  {
    StreamedDelivers(polls, Slice(F, p));
    assert F == F[..p.offset] + Slice(F, p) + F[p.End()..];
    assert F[..p.offset] + Slice(F, p) == F[..p.End()];
  }

  // ----------------------------------------------------------- verify and promote

  datatype VerifyError = DigestMismatch | MalformedSignature | UnknownKid | SignatureMismatch
  datatype Verdict = Accepted | Refused(error: VerifyError)

  /** The trust data of one request. */
  datatype Trust = Trust(sha256: string, signature: string, kid: string)

  /** Hashing, signature parsing, the pinned keys and signature checking, whatever they are. */
  datatype Crypto<!Sig, !Key> = Crypto(
    digest: Bytes -> string,
    parse: string -> Option<Sig>,
    key: string -> Option<Key>,
    verifies: (Key, string, Sig) -> bool)

  function Lower(s: string): string {
    if s == "" then ""
    else [if 'A' <= s[0] <= 'Z' then s[0] - 'A' + 'a' else s[0]] + Lower(s[1..])
  }

  /** `verify_model`: the digest first, then the signature over it under the pinned key. */
  function VerifyModel<Sig, Key>(c: Crypto<Sig, Key>, content: Bytes, t: Trust): Verdict {
    var d := c.digest(content);
    if Lower(d) != Lower(Trim(t.sha256)) then Refused(DigestMismatch)
    else
      match c.parse(t.signature)
      case None => Refused(MalformedSignature)
      case Some(sig) =>
        match c.key(t.kid)
        case None => Refused(UnknownKid)
        case Some(key) => if c.verifies(key, d, sig) then Accepted else Refused(SignatureMismatch)
  }

  /** The same letter, or the two cases of one ASCII letter. */
  predicate SameLetter(a: char, b: char) {
    || a == b
    || ('a' <= a <= 'z' && b == a - 'a' + 'A')
    || ('a' <= b <= 'z' && a == b - 'a' + 'A')
  }

  predicate SameHex(a: string, b: string) { |a| == |b| && forall i :: 0 <= i < |a| ==> SameLetter(a[i], b[i]) }

  /** The content is what was promised, and a key pinned to the promised id signed its digest. */
  ghost predicate Genuine<Sig(!new), Key(!new)>(c: Crypto<Sig, Key>, content: Bytes, t: Trust) {
    && SameHex(c.digest(content), Trim(t.sha256))
    && exists sig: Sig, key: Key ::
         c.parse(t.signature) == Some(sig) && c.key(t.kid) == Some(key) && c.verifies(key, c.digest(content), sig)
  }

  /** Which check fails first. */
  ghost predicate Fails<Sig(!new), Key(!new)>(c: Crypto<Sig, Key>, content: Bytes, t: Trust, e: VerifyError) {
    match e
    case DigestMismatch => !SameHex(c.digest(content), Trim(t.sha256))
    case MalformedSignature => SameHex(c.digest(content), Trim(t.sha256)) && c.parse(t.signature).None?
    case UnknownKid =>
      SameHex(c.digest(content), Trim(t.sha256)) && c.parse(t.signature).Some? && c.key(t.kid).None?
    case SignatureMismatch =>
      && SameHex(c.digest(content), Trim(t.sha256))
      && exists sig: Sig, key: Key ::
           c.parse(t.signature) == Some(sig) && c.key(t.kid) == Some(key) && !c.verifies(key, c.digest(content), sig)
  }

  lemma {:induction false} LowerSame(a: string, b: string)
    ensures Lower(a) == Lower(b) <==> SameHex(a, b)
  {
    LowerLength(a);
    LowerLength(b);
    if a != "" && b != "" {
      LowerSame(a[1..], b[1..]);
      assert Lower(a)[1..] == Lower(a[1..]) && Lower(b)[1..] == Lower(b[1..]);
      assert Lower(a) == [Lower(a)[0]] + Lower(a)[1..] && Lower(b) == [Lower(b)[0]] + Lower(b)[1..];
      if SameHex(a[1..], b[1..]) && SameLetter(a[0], b[0]) && |a| == |b| {
        forall i | 0 <= i < |a| ensures SameLetter(a[i], b[i]) {
          if i > 0 { assert SameLetter(a[1..][i - 1], b[1..][i - 1]); }
        }
      }
    }
  }

  lemma {:induction false} LowerLength(s: string)
    ensures |Lower(s)| == |s|
  {
    if s != "" { LowerLength(s[1..]); }
  }

  /** A file is accepted if and only if it is genuine, and a refusal names the first check that fails. */
  lemma VerifyModelExact<Sig(!new), Key(!new)>(c: Crypto<Sig, Key>, content: Bytes, t: Trust)
    ensures VerifyModel(c, content, t) == Accepted <==> Genuine(c, content, t)
    ensures forall e :: VerifyModel(c, content, t) == Refused(e) <==> Fails(c, content, t, e)
  {
    hide Lower, SameHex;
    LowerSame(c.digest(content), Trim(t.sha256));
  }

  datatype RunResult = Ready | VerifyFailed(error: VerifyError) | DownloadFailed(outcome: Outcome)

  /** What follows a download: verify, then rename. Nothing but a genuine `.part` becomes the model,
      and an existing model is never touched. */
  method VerifyAndPromote<Sig(!new), Key(!new)>(
      c: Crypto<Sig, Key>, part: PartFile, dest: PartFile, downloaded: Outcome, t: Trust)
    returns (r: RunResult)
    requires part != dest && dest.data.None?
    modifies part, dest
    ensures r == Ready <==> downloaded == Done && Genuine(c, old(part.Content()), t)
    ensures forall e :: r == VerifyFailed(e) <==> downloaded == Done && Fails(c, old(part.Content()), t, e)
    ensures r == Ready ==> dest.data == Some(old(part.Content())) && part.data.None?
    ensures r != Ready ==> dest.data == old(dest.data) && part.data == old(part.data)
  {
    if downloaded != Done {
      return DownloadFailed(downloaded);
    }
    VerifyModelExact(c, part.Content(), t);
    match VerifyModel(c, part.Content(), t) {
      case Refused(e) => return VerifyFailed(e);
      case Accepted =>
        dest.data := Some(part.Content());
        part.data := None;
        return Ready;
    }
  }
}
