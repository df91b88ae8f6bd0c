/** The one-use handoff: a nonce challenge over a private socket pair, and the proof that a returned
    descriptor shares the open file description of the held window. */
module Handoff {
  import opened Wrappers

  // ---------- descriptors ----------

  datatype Identity = Identity(device: nat, inode: nat)

  /** What a descriptor refers to: an open file description, of some file. */
  datatype Descriptor = Descriptor(description: nat, file: Identity)

  /** The offsets of the open file descriptions. */
  class Kernel {
    var offset: map<nat, int>

    constructor (offset: map<nat, int>)
      ensures this.offset == offset
    {
      this.offset := offset;
    }

    method Seek(fd: Descriptor, to: int)
      requires fd.description in offset
      modifies this
      ensures offset == old(offset)[fd.description := to]
    {
      offset := offset[fd.description := to];
    }

    method Tell(fd: Descriptor) returns (at: int)
      requires fd.description in offset
      ensures at == offset[fd.description]
    {
      at := offset[fd.description];
    }

    /** True exactly when both descriptors share one description; None when the returned one is not
        the expected file.  Both offsets are what they were. */
    method SameOpenFileDescription(expected: Descriptor, returned: Descriptor, identity: Identity)
      returns (same: Option<bool>)
      requires expected.description in offset && returned.description in offset
      modifies this
      ensures offset == old(offset)
      ensures same.None? <==> returned.file != identity
      ensures same.Some? ==> (same.value <==> expected.description == returned.description)
    {
      if returned.file != identity { return None; }
      var original := Tell(expected);
      var place := Tell(returned);
      var probe := original + 1;
      Seek(returned, probe);
      var seen := Tell(expected);
      same := Some(seen == probe);
      Seek(returned, place);
      Seek(expected, original);
      assert offset == old(offset);
    }
  }

  // ---------- messages ----------

  datatype Binding = Binding(nonce: string, challenge: string, receipt: string, identity: Identity)

  datatype Message = Frame(b: Binding) | Response(b: Binding) | Approval(b: Binding)

  /** One byte of a message.  Digests are symbolic: their bytes determine what was digested. */
  datatype Cell = Cell(m: Message, k: nat)

  const MAX_FRAME := 512
  const DIGEST := 64

  function Digits(n: nat): nat { if n < 10 then 1 else 1 + Digits(n / 10) }

  /** The length of the frame text: 68 characters of names and punctuation, newline included. */
  function FrameLength(b: Binding): nat {
    68 + |b.nonce| + |b.challenge| + |b.receipt| + Digits(b.identity.device) + Digits(b.identity.inode)
  }

  function Length(m: Message): nat { if m.Frame? then FrameLength(m.b) else DIGEST }

  function Bytes(m: Message): seq<Cell> { seq(Length(m), k requires 0 <= k < Length(m) => Cell(m, k)) }

  /** The newline stands at the end of a frame and nowhere else. */
  predicate Newline(c: Cell) { c.m.Frame? && c.k == FrameLength(c.m.b) - 1 }

  // ---------- the root side ----------

  /** What one receive returns. */
  datatype Received =
    | Block(bytes: seq<Cell>, fds: seq<Descriptor>, truncated: bool, foreign: bool)
    | Timeout

  function Min(x: nat, y: nat): nat { if x < y then x else y }

  /** The receive loop: answer and descriptors, None when it is rejected. */
  function Collect(blocks: seq<Received>, answer: seq<Cell>, fds: seq<Descriptor>): Option<(seq<Cell>, seq<Descriptor>)>
    decreases |blocks|
  {
    if |answer| >= DIGEST then Some((answer, fds))
    else if blocks == [] || blocks[0].Timeout? || blocks[0].bytes == [] || blocks[0].truncated || blocks[0].foreign
    then None
    else Collect(blocks[1..], answer + blocks[0].bytes[..Min(|blocks[0].bytes|, DIGEST - |answer|)], fds + blocks[0].fds)
  }

  predicate SharesWindow(window: Descriptor, fds: seq<Descriptor>) {
    |fds| == 1 && fds[0].file == window.file && fds[0].description == window.description
  }

  /** The answer is the response to this very binding, and came with the window itself. */
  predicate Verified(b: Binding, window: Descriptor, blocks: seq<Received>) {
    match Collect(blocks, [], [])
    case None => false
    case Some((answer, fds)) => SharesWindow(window, fds) && answer == Bytes(Response(b))
  }

  datatype Env = Env(
    frameSent: nat,     // bytes of the frame written before the first send fails, if it does
    frameFails: bool,
    blocks: seq<Received>,
    approvalSent: nat,
    approvalFails: bool)

  function Cut(s: seq<Cell>, n: nat): seq<Cell> { s[..Min(n, |s|)] }

  /** Everything the root writes in one challenge, and whether it ends approved. */
  function Written(b: Binding, window: Descriptor, env: Env): (seq<Cell>, bool) {
    var frame, approval := Bytes(Frame(b)), Bytes(Approval(b));
    if FrameLength(b) > MAX_FRAME then ([], false)
    else if env.frameFails then (Cut(frame, env.frameSent), false)
    else if !Verified(b, window, env.blocks) then (frame, false)
    else if env.approvalFails then (frame + Cut(approval, env.approvalSent), false)
    else (frame + approval, true)
  }

  datatype Flags = Flags(taken: bool, used: bool)

  /** One use: the launch is claimed, then challenged, once each. */
  class OneLaunchHandoff {
    const b: Binding
    const window: Descriptor
    const kernel: Kernel
    var taken: bool
    var used: bool

    constructor (b: Binding, window: Descriptor, kernel: Kernel)
      ensures this.b == b && this.window == window && this.kernel == kernel && State() == Flags(false, false)
    {
      this.b, this.window, this.kernel, taken, used := b, window, kernel, false, false;
    }

    function State(): Flags
      reads this
    {
      Flags(taken, used)
    }

    method TakeChildFds() returns (ok: bool)
      modifies this`taken
      ensures (State(), ok) == (if !old(taken) && !used then (Flags(true, used), true) else (old(State()), false))
    {
      if taken || used { return false; }
      taken, ok := true, true;
    }

    /** The receive loop. */
    method Receive(blocks: seq<Received>) returns (r: Option<(seq<Cell>, seq<Descriptor>)>)
      ensures r == Collect(blocks, [], [])
    {
      var answer: seq<Cell>, fds: seq<Descriptor> := [], [];
      var i := 0;
      assert blocks[0..] == blocks;
      while |answer| < DIGEST
        invariant i <= |blocks|
        invariant Collect(blocks[i..], answer, fds) == Collect(blocks, [], [])
        decreases |blocks| - i
      {
        if i == |blocks| || blocks[i].Timeout? || blocks[i].bytes == [] || blocks[i].truncated || blocks[i].foreign
        { return None; }
        assert blocks[i..][1..] == blocks[i + 1..];
        fds := fds + blocks[i].fds;
        answer := answer + blocks[i].bytes[..Min(|blocks[i].bytes|, DIGEST - |answer|)];
        i := i + 1;
      }
      r := Some((answer, fds));
    }

    /** The descriptor probe works on the kernel; `written` is what reaches the socket. */
    method Challenge(env: Env) returns (written: seq<Cell>, approved: bool)
      requires window.description in kernel.offset
      requires forall r <- env.blocks :: r.Block? ==> forall fd <- r.fds :: fd.description in kernel.offset
      modifies this`used, kernel
      ensures kernel.offset == old(kernel.offset)
      ensures old(taken) && !old(used) ==> used && (written, approved) == Written(b, window, env)
      ensures !(old(taken) && !old(used)) ==> used == old(used) && written == [] && !approved
    {
      if !taken || used { return [], false; }
      used := true;
      if FrameLength(b) > MAX_FRAME { return [], false; }
      var frame := Bytes(Frame(b));
      if env.frameFails { return Cut(frame, env.frameSent), false; }
      var received := Receive(env.blocks);
      if received.None? { return frame, false; }
      var (answer, fds) := received.value;
      if |fds| != 1 { return frame, false; }
      CollectedFds(env.blocks, [], [], fds[0]);
      var same := kernel.SameOpenFileDescription(window, fds[0], window.file);
      if same != Some(true) { return frame, false; }
      if answer != Bytes(Response(b)) { return frame, false; }
      var approval := Bytes(Approval(b));
      if env.approvalFails { return frame + Cut(approval, env.approvalSent), false; }
      return frame + approval, true;
    }
  }

  lemma {:induction false} CollectedFds(blocks: seq<Received>, answer: seq<Cell>, fds: seq<Descriptor>, fd: Descriptor)
    requires Collect(blocks, answer, fds).Some? && fd in Collect(blocks, answer, fds).value.1
    ensures fd in fds || exists r :: r in blocks && r.Block? && fd in r.fds
    decreases |blocks|
  {
    if |answer| < DIGEST {
      var r := blocks[0];
      CollectedFds(blocks[1..], answer + r.bytes[..Min(|r.bytes|, DIGEST - |answer|)], fds + r.fds, fd);
      assert r in blocks && forall x :: x in blocks[1..] ==> x in blocks;
    }
  }

  // ---------- the child side ----------

  /** The bytes up to and with the first newline; None when there is none within the frame bound. */
  function ReadLine(s: seq<Cell>, room: nat): Option<nat>
    decreases |s|
  {
    if s == [] || room == 0 then None
    else if Newline(s[0]) then Some(1)
    else match ReadLine(s[1..], room - 1)
      case None => None
      case Some(n) => Some(n + 1)
  }

  lemma {:induction false} ReadLineBound(s: seq<Cell>, room: nat)
    ensures ReadLine(s, room).Some? ==> 1 <= ReadLine(s, room).value <= Min(|s|, room)
    decreases |s|
  {
    if s != [] && room > 0 { ReadLineBound(s[1..], room - 1); }
  }

  /** A JSON text is a frame only as a whole. */
  function ParseFrame(raw: seq<Cell>): Option<Binding> {
    if raw != [] && raw[0].m.Frame? && raw == Bytes(raw[0].m) then Some(raw[0].m.b) else None
  }

  /** What the child makes of all bytes that reach it in time: the binding it accepts. */
  function Proved(s: seq<Cell>, window: Descriptor, receipt: string, answerSent: bool): Option<Binding> {
    ReadLineBound(s, MAX_FRAME);
    match ReadLine(s, MAX_FRAME)
    case None => None
    case Some(n) =>
      match ParseFrame(s[..n])
      case None => None
      case Some(b) =>
        if b.receipt == receipt && b.identity == window.file && answerSent
           && |s| >= n + DIGEST && s[n..n + DIGEST] == Bytes(Approval(b))
        then Some(b) else None
  }

  /** `child_prove`: byte by byte to the newline, then the approval. */
  method ChildProve(s: seq<Cell>, window: Descriptor, receipt: string, answerSent: bool)
    returns (accepted: Option<Binding>)
    ensures accepted == Proved(s, window, receipt, answerSent)
  {
    var n := 0;
    ReadLineBound(s, MAX_FRAME);
    assert s[0..] == s;
    while n == 0 || !Newline(s[n - 1])
      invariant n <= |s| && n <= MAX_FRAME
      invariant n == 0 || !Newline(s[n - 1]) ==>
                  ReadLine(s, MAX_FRAME) == (match ReadLine(s[n..], MAX_FRAME - n) case None => None case Some(k) => Some(n + k))
      invariant n > 0 && Newline(s[n - 1]) ==> ReadLine(s, MAX_FRAME) == Some(n)
      decreases |s| - n
    {
      if n == |s| || n >= MAX_FRAME { return None; }
      assert s[n..][1..] == s[n + 1..];
      n := n + 1;
    }
    var frame := ParseFrame(s[..n]);
    if frame.None? || frame.value.receipt != receipt || frame.value.identity != window.file || !answerSent
    { return None; }
    if |s| < n + DIGEST || s[n..n + DIGEST] != Bytes(Approval(frame.value)) { return None; }
    accepted := frame;
  }

  // ---------- what arrived ----------

  /** All bytes of a list of receives, in order, and all descriptors. */
  function Arrived(blocks: seq<Received>): seq<Cell>
    decreases |blocks|
  {
    if blocks == [] then []
    else Arrived(blocks[..|blocks| - 1]) + (if blocks[|blocks| - 1].Block? then blocks[|blocks| - 1].bytes else [])
  }

  function Fds(blocks: seq<Received>): seq<Descriptor>
    decreases |blocks|
  {
    if blocks == [] then []
    else Fds(blocks[..|blocks| - 1]) + (if blocks[|blocks| - 1].Block? then blocks[|blocks| - 1].fds else [])
  }

  /** The first `m` receives are sound, the last of them brings the 64th byte, and the first 64 bytes and
      the descriptors so far are these. */
  ghost predicate Answer(blocks: seq<Received>, m: nat, bytes: seq<Cell>, fds: seq<Descriptor>) {
    && m <= |blocks|
    && (forall i :: 0 <= i < m ==> Sound(blocks[i]))
    && (forall i :: 0 <= i < m ==> |Arrived(blocks[..i])| < 64)
    && |Arrived(blocks[..m])| >= 64
    && bytes == Arrived(blocks[..m])[..64] && fds == Fds(blocks[..m])
  }

  lemma ArrivedNext(blocks: seq<Received>, i: nat)
    requires i < |blocks| && blocks[i].Block?
    ensures Arrived(blocks[..i + 1]) == Arrived(blocks[..i]) + blocks[i].bytes
    ensures Fds(blocks[..i + 1]) == Fds(blocks[..i]) + blocks[i].fds
  {
    assert blocks[..i + 1][..i] == blocks[..i];
  }

  lemma AnswerUnique(blocks: seq<Received>, m: nat, bytes: seq<Cell>, fds: seq<Descriptor>,
                     n: nat, other: seq<Cell>, more: seq<Descriptor>)
    requires Answer(blocks, m, bytes, fds) && Answer(blocks, n, other, more)
    ensures m == n && bytes == other && fds == more
  {
  }

  predicate Sound(r: Received) { r.Block? && r.bytes != [] && !r.truncated && !r.foreign }

  lemma AnswerLater(blocks: seq<Received>, i: nat, m: nat, bytes: seq<Cell>, fds: seq<Descriptor>)
    requires i < |blocks| && Answer(blocks, m, bytes, fds)
    requires forall k :: 0 <= k <= i ==> |Arrived(blocks[..k])| < 64
    ensures m > i && Sound(blocks[i])
  {
  }

  /** The receive loop from position `i` on, in terms of what arrives. */
  lemma {:induction false} CollectFrom(blocks: seq<Received>, i: nat)
    requires i <= |blocks|
    requires forall k :: 0 <= k < i ==> Sound(blocks[k])
    requires forall k :: 0 <= k <= i ==> |Arrived(blocks[..k])| < 64
    ensures var r := Collect(blocks[i..], Arrived(blocks[..i]), Fds(blocks[..i]));
      && (r.Some? ==> exists m: nat :: Answer(blocks, m, r.value.0, r.value.1))
      && (r.None? ==> forall m: nat, bytes, fds :: !Answer(blocks, m, bytes, fds))
    decreases |blocks| - i
  {
    hide Arrived, Fds;
    if i < |blocks| {
      var x := blocks[i];
      assert blocks[i..][0] == x && blocks[i..][1..] == blocks[i + 1..];
      if Sound(x) {
        ArrivedNext(blocks, i);
        var all := Arrived(blocks[..i + 1]);
        var got := Arrived(blocks[..i]) + x.bytes[..Min(|x.bytes|, DIGEST - |Arrived(blocks[..i])|)];
        if |all| >= 64 {
          assert got == all[..64];
          assert Answer(blocks, i + 1, got, Fds(blocks[..i + 1]));
        } else {
          assert got == all;
          CollectFrom(blocks, i + 1);
        }
      } else {
        forall m: nat, bytes, fds ensures !Answer(blocks, m, bytes, fds) {
          if Answer(blocks, m, bytes, fds) { AnswerLater(blocks, i, m, bytes, fds); }
        }
      }
    } else {
      assert blocks[i..] == [] && blocks[..i] == blocks;
    }
  }

  lemma ReceivedIs(blocks: seq<Received>)
    ensures Collect(blocks, [], []).Some? ==>
              exists m: nat :: Answer(blocks, m, Collect(blocks, [], []).value.0, Collect(blocks, [], []).value.1)
    ensures forall m: nat, bytes, fds :: Answer(blocks, m, bytes, fds) ==> Collect(blocks, [], []) == Some((bytes, fds))
  {
    assert blocks[0..] == blocks && blocks[..0] == [];
    CollectFrom(blocks, 0);
    hide Answer, Collect;
    forall m: nat, bytes, fds | Answer(blocks, m, bytes, fds) ensures Collect(blocks, [], []) == Some((bytes, fds)) {
      var (got, sent) := Collect(blocks, [], []).value;
      var n: nat :| Answer(blocks, n, got, sent);
      AnswerUnique(blocks, m, bytes, fds, n, got, sent);
    }
  }

  predicate TheWindow(fds: seq<Descriptor>, window: Descriptor) {
    |fds| == 1 && fds[0].file == window.file && fds[0].description == window.description
  }

  /** The peer answered this very binding with 64 bytes, and with the window and no other descriptor. */
  ghost predicate ProvedItself(b: Binding, window: Descriptor, blocks: seq<Received>) {
    exists m: nat, fds :: Answer(blocks, m, Bytes(Response(b)), fds) && TheWindow(fds, window)
  }

  /** The root approves exactly when the peer proved itself, the frame is short enough and both sends
      complete. */
  lemma ApprovedExactly(b: Binding, window: Descriptor, env: Env)
    ensures Written(b, window, env).1 <==>
              FrameLength(b) <= 512 && !env.frameFails && !env.approvalFails && ProvedItself(b, window, env.blocks)
  {
    hide Answer;
    ReceivedIs(env.blocks);
  }

  /** Any other answer, or any other descriptors, and the root writes no approval at all. */
  lemma WrongAnswerRefused(b: Binding, window: Descriptor, env: Env)
    requires FrameLength(b) <= 512 && !env.frameFails && !ProvedItself(b, window, env.blocks)
    ensures Written(b, window, env) == (Bytes(Frame(b)), false)
  {
    hide Answer;
    ReceivedIs(env.blocks);
  }

  // ---------- agreement ----------

  lemma {:induction false} FirstLine(b: Binding, k: nat, rest: seq<Cell>, room: nat)
    requires k < FrameLength(b)
    ensures ReadLine(Bytes(Frame(b))[k..] + rest, room)
            == if room >= FrameLength(b) - k then Some(FrameLength(b) - k) else None
    decreases FrameLength(b) - k
  {
    var s := Bytes(Frame(b))[k..] + rest;
    assert s[0] == Cell(Frame(b), k);
    if k < FrameLength(b) - 1 && room > 0 {
      assert s[1..] == Bytes(Frame(b))[k + 1..] + rest;
      FirstLine(b, k + 1, rest, room - 1);
    }
  }

  lemma {:induction false} NoLine(s: seq<Cell>, room: nat)
    requires forall c <- s :: !Newline(c)
    ensures ReadLine(s, room).None?
    decreases |s|
  {
    if s != [] && room > 0 {
      assert s[0] in s;
      NoLine(s[1..], room - 1);
    }
  }

  /** Agreement: whatever part of the root's bytes reaches the child, if the child accepts, then it
      accepts the root's own binding, with its own receipt and window file, and the root had verified
      the response to that binding together with the shared window. */
  lemma ChildAcceptsOnlyVerified(b: Binding, window: Descriptor, env: Env, n: nat,
                                 childWindow: Descriptor, receipt: string, answerSent: bool)
    requires n <= |Written(b, window, env).0|
    ensures var accepted := Proved(Written(b, window, env).0[..n], childWindow, receipt, answerSent);
      accepted.Some? ==>
        && accepted.value == b
        && b.receipt == receipt && b.identity == childWindow.file
        && Verified(b, window, env.blocks) && ProvedItself(b, window, env.blocks)
        && n == FrameLength(b) + DIGEST
  {
    ReadLineBound(Written(b, window, env).0[..n], MAX_FRAME);
    ReceivedIs(env.blocks);
    hide Answer, Collect;
  }

  /** The answer in any pieces, the window with the first of them. */
  function Pieces(answer: seq<Cell>, cuts: seq<nat>, fds: seq<Descriptor>): seq<Received>
    decreases |cuts|
  {
    if cuts == [] then [Block(answer, fds, false, false)]
    else if 0 < cuts[0] < |answer| then
      [Block(answer[..cuts[0]], fds, false, false)] + Pieces(answer[cuts[0]..], cuts[1..], [])
    else Pieces(answer, cuts[1..], fds)
  }

  lemma {:induction false} PiecesCollect(done: seq<Cell>, answer: seq<Cell>, cuts: seq<nat>,
                                         got: seq<Descriptor>, fds: seq<Descriptor>)
    requires answer != [] && |done| + |answer| == DIGEST
    ensures Collect(Pieces(answer, cuts, fds), done, got) == Some((done + answer, got + fds))
    decreases |cuts|
  {
    if cuts == [] {
      assert answer[..|answer|] == answer;
    } else if 0 < cuts[0] < |answer| {
      var head, tail := answer[..cuts[0]], answer[cuts[0]..];
      PiecesCollect(done + head, tail, cuts[1..], got + fds, []);
      var all := Pieces(answer, cuts, fds);
      assert all[1..] == Pieces(tail, cuts[1..], []);
      assert head[..|head|] == head;
      assert done + head + tail == done + answer && got + fds + [] == got + fds;
    } else {
      PiecesCollect(done, answer, cuts[1..], got, fds);
    }
  }

  /** The honest exchange succeeds: when the child answers with a descriptor that shares the window,
      however its answer is cut, the root approves and the child accepts that binding. */
  lemma HonestExchange(b: Binding, window: Descriptor, childWindow: Descriptor, cuts: seq<nat>, env: Env)
    requires FrameLength(b) <= MAX_FRAME && b.identity == window.file && childWindow == window
    requires !env.frameFails && !env.approvalFails
    requires env.blocks == Pieces(Bytes(Response(b)), cuts, [childWindow])
    ensures Written(b, window, env).1
    ensures Proved(Written(b, window, env).0, childWindow, b.receipt, true) == Some(b)
  {
    PiecesCollect([], Bytes(Response(b)), cuts, [], [childWindow]);
    var frame, approval := Bytes(Frame(b)), Bytes(Approval(b));
    var s := frame + approval;
    assert s == frame[0..] + approval;
    FirstLine(b, 0, approval, MAX_FRAME);
    assert s[..|frame|] == frame && frame[0] == Cell(Frame(b), 0);
    assert s[|frame|..|frame| + DIGEST] == approval;
  }

  // ---------- one use ----------

  datatype Call = Take | Challenge(env: Env)

  /** The flags after a call, and what it wrote. */
  function Use(f: Flags, b: Binding, window: Descriptor, c: Call): (Flags, seq<Cell>) {
    match c
    case Take => (if !f.taken && !f.used then Flags(true, f.used) else f, [])
    case Challenge(env) =>
      if f.taken && !f.used then (Flags(true, true), Written(b, window, env).0) else (f, [])
  }

  function Stream(f: Flags, b: Binding, window: Descriptor, calls: seq<Call>): seq<Cell>
    decreases |calls|
  {
    if calls == [] then []
    else Use(f, b, window, calls[0]).1 + Stream(Use(f, b, window, calls[0]).0, b, window, calls[1..])
  }

  lemma {:induction false} UsedIsSilent(f: Flags, b: Binding, window: Descriptor, calls: seq<Call>)
    requires f.used
    ensures Stream(f, b, window, calls) == []
    decreases |calls|
  {
    if calls != [] { UsedIsSilent(Use(f, b, window, calls[0]).0, b, window, calls[1..]); }
  }

  /** Over any calls on one object, everything ever written is the output of at most one challenge. */
  lemma {:induction false} ChallengedAtMostOnce(f: Flags, b: Binding, window: Descriptor, calls: seq<Call>)
    ensures Stream(f, b, window, calls) == [] ||
      exists i :: 0 <= i < |calls| && calls[i].Challenge?
                  && Stream(f, b, window, calls) == Written(b, window, calls[i].env).0
    decreases |calls|
  {
    if calls != [] {
      var (g, out) := Use(f, b, window, calls[0]);
      if g.used {
        UsedIsSilent(g, b, window, calls[1..]);
      } else {
        ChallengedAtMostOnce(g, b, window, calls[1..]);
        if Stream(g, b, window, calls[1..]) != [] {
          var i :| 0 <= i < |calls[1..]| && calls[1..][i].Challenge?
                   && Stream(g, b, window, calls[1..]) == Written(b, window, calls[1..][i].env).0;
          assert calls[i + 1] == calls[1..][i];
        }
      }
    }
  }

  /** Both together: a child that accepts anything out of one object's socket accepts that object's
      binding, and some challenge of that object had verified the answer. */
  lemma OneLaunchAgreement(b: Binding, window: Descriptor, calls: seq<Call>, n: nat,
                           childWindow: Descriptor, receipt: string, answerSent: bool)
    requires n <= |Stream(Flags(false, false), b, window, calls)|
    ensures var accepted := Proved(Stream(Flags(false, false), b, window, calls)[..n], childWindow, receipt, answerSent);
      accepted.Some? ==>
        && accepted.value == b
        && b.receipt == receipt && b.identity == childWindow.file
        && exists i :: 0 <= i < |calls| && calls[i].Challenge? && ProvedItself(b, window, calls[i].env.blocks)
  {
    var all := Stream(Flags(false, false), b, window, calls);
    ChallengedAtMostOnce(Flags(false, false), b, window, calls);
    if all == [] {
      NoLine(all[..n], MAX_FRAME);
    } else {
      var i :| 0 <= i < |calls| && calls[i].Challenge? && all == Written(b, window, calls[i].env).0;
      ChildAcceptsOnlyVerified(b, window, calls[i].env, n, childWindow, receipt, answerSent);
    }
  }
}
