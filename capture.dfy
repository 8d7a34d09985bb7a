/**
 * The capture loop of runCommand: the read_into_buffer lambda, which appends what
 * one non-blocking read returns to a growable buffer, and the polling loop that
 * drains the child's stdout and stderr pipes and detects its exit with waitpid.
 */
module Capture {
  import opened Wrappers
  import opened Os

  /** The number of elements each capture vector in runCommand starts with. */
  const InitialSize: nat := 64

  /** The most bytes that one read in read_into_buffer asks for. */
  const ReadSize: nat := 64

  /** `n` zero bytes: the value a vector gives the elements it grows by. */
  function Zeros(n: nat): (z: seq<byte>)
    ensures |z| == n && forall i | 0 <= i < n :: z[i] == 0
  {
    seq(n, _ => 0)
  }

  /** The chunks one after another, in order. */
  function Flatten(chunks: seq<seq<byte>>): seq<byte> {
    if chunks == [] then [] else Flatten(chunks[..|chunks| - 1]) + chunks[|chunks| - 1]
  }

  lemma FlattenAppend(chunks: seq<seq<byte>>, c: seq<byte>)
    ensures Flatten(chunks + [c]) == Flatten(chunks) + c
  {
    assert (chunks + [c])[..|chunks|] == chunks;
  }

  /**
   * Copying a chunk into the 64 zero bytes after the data and then growing the vector
   * by the chunk's length leaves the data extended by the chunk, followed by 64 zero bytes.
   */
  lemma WriteThenGrow(data: seq<byte>, chunk: seq<byte>)
    requires |chunk| <= ReadSize
    ensures var b := data + Zeros(InitialSize);
      b[..|data|] + chunk + b[|data| + |chunk|..] + Zeros(|chunk|) == data + chunk + Zeros(InitialSize)
  {
    var b := data + Zeros(InitialSize);
    assert b[..|data|] == data;
    assert b[|data| + |chunk|..] == Zeros(InitialSize - |chunk|);
    assert Zeros(InitialSize - |chunk|) + Zeros(|chunk|) == Zeros(InitialSize);
  }

  /** Every chunk a read returns holds between 1 and 64 bytes. */
  ghost predicate ChunkSizes(chunks: seq<seq<byte>>) {
    forall c | c in chunks :: 0 < |c| <= ReadSize
  }

  lemma ChunkSizesAppend(chunks: seq<seq<byte>>, chunk: seq<byte>)
    requires ChunkSizes(chunks) && 0 < |chunk| <= ReadSize
    ensures ChunkSizes(chunks + [chunk])
  {
  }

  /**
   * The layout of a capture vector: 64 elements longer than the data in it, the data
   * being the chunks read so far, in order, followed by 64 zero bytes of room for the
   * next read.
   */
  ghost predicate Layout(buffer: seq<byte>, index: nat, chunks: seq<seq<byte>>) {
    && |buffer| == index + InitialSize
    && buffer == Flatten(chunks) + Zeros(InitialSize)
    && ChunkSizes(chunks)
  }

  /**
   * Copying a chunk into the room at `index` and then growing the vector by the
   * chunk's length keeps the layout, with the chunk as the last one read.
   */
  lemma ReadIntoRoom(buffer: seq<byte>, index: nat, chunks: seq<seq<byte>>, chunk: seq<byte>, ret: nat)
    requires Layout(buffer, index, chunks) && 0 < |chunk| <= ReadSize && ret == |chunk|
    ensures index + ret <= |buffer|
    ensures Layout(buffer[..index] + chunk + buffer[index + ret..] + Zeros(ret), index + ret, chunks + [chunk])
  {
    WriteThenGrow(Flatten(chunks), chunk);
    FlattenAppend(chunks, chunk);
    ChunkSizesAppend(chunks, chunk);
  }

  /**
   * One capture buffer with its write position: the std::vector<char> and the
   * size_t index that read_into_buffer takes by reference. `chunks` records what
   * each successful read returned.
   */
  class CaptureBuffer {
    var buffer: seq<byte>
    var index: nat
    ghost var chunks: seq<seq<byte>>

    /** The vector keeps its layout: the chunks read so far, then 64 zero bytes of room. */
    ghost predicate Valid()
      reads this
    {
      Layout(buffer, index, chunks)
    }

    /** buffer[0..index): the bytes captured so far, which are the chunks read, in order. */
    function Captured(): (s: seq<byte>)
      reads this
      requires Valid()
      ensures s == Flatten(chunks) && |s| == index
    {
      buffer[..index]
    }

    constructor ()
      ensures Valid() && chunks == [] && index == 0 && |buffer| == InitialSize
    {
      buffer := Zeros(InitialSize);
      index := 0;
      chunks := [];
      assert Flatten([]) == [];
    }

    /**
     * read_into_buffer: one read of at most 64 bytes into the room at `index`. It
     * returns true exactly when read returned a positive count; then that many bytes
     * are appended at `index`, the vector grows by the same count and `index` moves
     * past them. On 0 (end of file) or a negative return (an error) nothing changes.
     */
    method ReadFrom(child: Child, fd: Fd) returns (got: bool)
      requires Valid()
      modifies this, child
      ensures Valid()
      ensures var r := ReadCall(old(child.world), fd, ReadSize);
        && child.world == r.after
        && got == (r.ret > 0)
        && (got ==> chunks == old(chunks) + [r.chunk] && index == old(index) + r.ret)
        && (!got ==> buffer == old(buffer) && index == old(index) && chunks == old(chunks))
    {
      var ret, chunk := child.Read(fd, ReadSize);
      if ret == 0 {
        return false;
      }
      if ret < 0 {
        return false;
      }
      Store(chunk, ret);
      return true;
    }

    /**
     * The `ret` bytes read land in the room right after the data, at `index`; then
     * the vector grows by `ret` elements and `index` moves forward by `ret`.
     */
    method Store(chunk: seq<byte>, ret: nat)
      requires Valid() && 0 < |chunk| <= ReadSize && ret == |chunk|
      modifies this
      ensures Valid()
      ensures chunks == old(chunks) + [chunk] && index == old(index) + ret
    {
      ReadIntoRoom(buffer, index, chunks, chunk, ret);
      buffer := buffer[..index] + chunk + buffer[index + ret..];
      buffer := buffer + Zeros(ret);
      index := index + ret;
      chunks := chunks + [chunk];
    }
  }

  /**
   * What one pass of the loop did: whether the stdout read got data, whether the
   * stderr read got data (None when the short circuit skipped it), and what waitpid returned
   * (None when it was not called).
   */
  datatype Pass = Pass(stdoutRead: bool, stderrRead: Option<bool>, wait: Option<int>)

  /** A pass whose reads all came back empty: pipe_empty is true after it. */
  predicate Empty(p: Pass) {
    !p.stdoutRead && p.stderrRead == Some(false)
  }

  /** Whether `ended` is set after a pass: its waitpid returned non-zero, or it made none because `ended` was already set. */
  predicate EndedAfter(p: Pass) {
    p.wait != Some(0)
  }

  /**
   * The order of the calls within one pass. ReadsThenWait is the order of bob.cc:
   * both reads, then waitpid. WaitThenReads polls first and reads afterwards.
   */
  datatype Order = ReadsThenWait | WaitThenReads

  /** The loop's variables between two passes, with the passes made so far. */
  datatype LoopState = LoopState(world: World, ended: bool, pipeEmpty: bool,
                                 stdout: seq<byte>, stderr: seq<byte>, passes: seq<Pass>)

  /** Before the loop: `ended` false, `pipe_empty` true, both buffers empty. */
  function Start(w: World): LoopState {
    LoopState(w, false, true, [], [], [])
  }

  /** `ended` is only ever set for a child that has exited. */
  predicate Consistent(s: LoopState) {
    ValidWorld(s.world) && (s.ended ==> s.world.exited)
  }

  datatype ReadsOutcome = ReadsOutcome(stdoutRead: bool, stderrRead: Option<bool>, world: World,
                                       stdout: seq<byte>, stderr: seq<byte>)

  /**
   * The two reads of a pass in runCommand's loop, each folded into `pipe_empty` with a
   * short-circuiting and: the stderr read happens only when the stdout read got nothing.
   */
  function Reads(w: World, stdout: seq<byte>, stderr: seq<byte>): (r: ReadsOutcome)
    requires ValidWorld(w)
    ensures ValidWorld(r.world) && r.world.pid == w.pid
    ensures r.stdoutRead <==> r.stderrRead.None?
    ensures Lifetime(r.world) <= Lifetime(w) && (w.exited ==> r.world.exited)
    ensures w.exited ==> Buffered(r.world) <= Buffered(w)
    ensures w.exited && (r.stdoutRead || r.stderrRead == Some(true)) ==> Buffered(r.world) < Buffered(w)
    ensures w.exited && r.stderrRead == Some(false) ==> r.world.stdoutPipe == [] && r.world.stderrPipe == []
  {
    var o := ReadCall(w, StdoutRead, ReadSize);
    if o.ret > 0 then ReadsOutcome(true, None, o.after, stdout + o.chunk, stderr)
    else
      var e := ReadCall(o.after, StderrRead, ReadSize);
      ReadsOutcome(false, Some(e.ret > 0), e.after, stdout, stderr + e.chunk)
  }

  datatype PollOutcome = PollOutcome(wait: Option<int>, ended: bool, world: World)

  /** The exit check of a pass: while `ended` is unset, poll waitpid without blocking and set `ended` on any non-zero result. */
  function Poll(w: World, ended: bool): (r: PollOutcome)
    requires ValidWorld(w) && (ended ==> w.exited)
    ensures ValidWorld(r.world) && r.world.pid == w.pid
    ensures r.wait.Some? <==> !ended
    ensures r.ended == (r.wait != Some(0)) && (r.ended ==> r.world.exited)
    ensures Lifetime(r.world) <= Lifetime(w) && (!r.ended ==> Lifetime(r.world) < Lifetime(w))
    ensures w.exited ==> r.world.stdoutPipe == w.stdoutPipe && r.world.stderrPipe == w.stderrPipe
    ensures w.exited ==> r.world.exited
  {
    if ended then PollOutcome(None, true, w)
    else
      var r := WaitCall(w);
      PollOutcome(Some(r.ret), r.ret != 0, r.after)
  }

  /** One pass of runCommand's capture loop, with its calls in the given order. */
  function Iterate(order: Order, s: LoopState): (r: LoopState)
    requires Consistent(s)
    ensures Consistent(r)
    ensures s.ended ==> r.ended
    ensures Lifetime(r.world) <= Lifetime(s.world)
    ensures !r.ended ==> Lifetime(r.world) < Lifetime(s.world)
    ensures s.ended ==> Buffered(r.world) <= Buffered(s.world)
    ensures s.ended && !r.pipeEmpty ==> Buffered(r.world) < Buffered(s.world)
    ensures |r.passes| == |s.passes| + 1 && r.passes == s.passes + [r.passes[|s.passes|]]
    ensures var p := r.passes[|s.passes|];
      && (p.stdoutRead <==> p.stderrRead.None?)
      && (p.wait.Some? <==> !s.ended)
      && r.ended == EndedAfter(p) && r.pipeEmpty == Empty(p)
  {
    match order
    case ReadsThenWait =>
      var rd := Reads(s.world, s.stdout, s.stderr);
      var pl := Poll(rd.world, s.ended);
      LoopState(pl.world, pl.ended, !rd.stdoutRead && rd.stderrRead == Some(false), rd.stdout, rd.stderr,
                s.passes + [Pass(rd.stdoutRead, rd.stderrRead, pl.wait)])
    case WaitThenReads =>
      var pl := Poll(s.world, s.ended);
      var rd := Reads(pl.world, s.stdout, s.stderr);
      LoopState(rd.world, pl.ended, !rd.stdoutRead && rd.stderrRead == Some(false), rd.stdout, rd.stderr,
                s.passes + [Pass(rd.stdoutRead, rd.stderrRead, pl.wait)])
  }

  /**
   * The loop from state `s` to its exit. It terminates because the child exits within
   * its script, after which every pass that continues has taken bytes out of a pipe.
   */
  function Run(order: Order, s: LoopState): (r: LoopState)
    requires Consistent(s)
    ensures Consistent(r)
    ensures r.ended && r.pipeEmpty && r.world.exited
    decreases !s.ended, Lifetime(s.world), Buffered(s.world), !s.pipeEmpty
  {
    if s.ended && s.pipeEmpty then s else Run(order, Iterate(order, s))
  }

  /** The whole capture for a freshly forked child. */
  function CaptureRun(order: Order, w: World): LoopState
    requires ValidWorld(w)
  {
    Run(order, Start(w))
  }

  // ---------------------------------------------------------------------------
  // The rules the passes follow

  /** The stderr read happens in exactly the passes where the stdout read got nothing. */
  ghost predicate ShortCircuits(t: seq<Pass>) {
    forall i | 0 <= i < |t| :: t[i].stdoutRead <==> t[i].stderrRead.None?
  }

  /** waitpid is called in the first pass, and in each later one exactly when every earlier call returned 0. */
  ghost predicate PollsUntilEnded(t: seq<Pass>) {
    && (|t| > 0 ==> t[0].wait.Some?)
    && forall i | 0 < i < |t| :: t[i].wait.Some? <==> t[i - 1].wait == Some(0)
  }

  /** The loop left after the first pass that found `ended` set and both reads empty, and not before. */
  ghost predicate ExitsWhenEndedAndEmpty(t: seq<Pass>) {
    && |t| > 0
    && EndedAfter(t[|t| - 1]) && Empty(t[|t| - 1])
    && forall i | 0 <= i < |t| - 1 :: !(EndedAfter(t[i]) && Empty(t[i]))
  }

  ghost predicate LoopRules(t: seq<Pass>) {
    ShortCircuits(t) && PollsUntilEnded(t) && ExitsWhenEndedAndEmpty(t)
  }

  /** The rules so far, for a loop that may still be running, tied to the loop's flags. */
  ghost predicate RulesSoFar(s: LoopState) {
    && ShortCircuits(s.passes) && PollsUntilEnded(s.passes)
    && (s.passes == [] ==> !s.ended)
    && (s.passes != [] ==> s.ended == EndedAfter(s.passes[|s.passes| - 1]) && s.pipeEmpty == Empty(s.passes[|s.passes| - 1]))
    && forall i | 0 <= i < |s.passes| - 1 :: !(EndedAfter(s.passes[i]) && Empty(s.passes[i]))
  }

  /** Appending a pass keeps the rules when its waitpid call and its flags agree with the passes before it. */
  lemma RulesExtend(s: LoopState, p: Pass, ended: bool, pipeEmpty: bool)
    requires RulesSoFar(s) && !(s.ended && s.pipeEmpty)
    requires p.stdoutRead <==> p.stderrRead.None?
    requires p.wait.Some? <==> !s.ended
    requires ended == EndedAfter(p) && pipeEmpty == Empty(p)
    ensures RulesSoFar(s.(passes := s.passes + [p], ended := ended, pipeEmpty := pipeEmpty))
  {
    var t := s.passes + [p];
    var n := |s.passes|;
    assert forall i | 0 <= i < n :: t[i] == s.passes[i];
    assert t[n] == p;
  }

  lemma IterateKeepsRules(order: Order, s: LoopState)
    requires Consistent(s) && RulesSoFar(s) && !(s.ended && s.pipeEmpty)
    ensures RulesSoFar(Iterate(order, s))
  {
    var r := Iterate(order, s);
    var p := r.passes[|s.passes|];
    RulesExtend(s, p, r.ended, r.pipeEmpty);
    assert r == s.(passes := s.passes + [p], ended := r.ended, pipeEmpty := r.pipeEmpty, world := r.world,
                   stdout := r.stdout, stderr := r.stderr);
  }

  /** Whichever the order within a pass, every run of the loop follows the rules. */
  lemma {:induction false} RunKeepsRules(order: Order, s: LoopState)
    requires Consistent(s) && RulesSoFar(s)
    ensures LoopRules(Run(order, s).passes)
    decreases !s.ended, Lifetime(s.world), Buffered(s.world), !s.pipeEmpty
  {
    if !(s.ended && s.pipeEmpty) {
      IterateKeepsRules(order, s);
      RunKeepsRules(order, Iterate(order, s));
    }
  }

  /** The capture of any child follows the rules. */
  lemma CaptureKeepsRules(order: Order, w: World)
    requires ValidWorld(w)
    ensures LoopRules(CaptureRun(order, w).passes)
  {
    RunKeepsRules(order, Start(w));
  }

  /** Once a pass has `ended` set, every later pass has it set too and makes no waitpid call. */
  lemma {:induction false} EndedIsFinal(t: seq<Pass>, i: nat, j: nat)
    requires PollsUntilEnded(t) && i < j < |t| && EndedAfter(t[i])
    ensures t[j].wait == None && EndedAfter(t[j])
    decreases j - i
  {
    if i + 1 < j {
      EndedIsFinal(t, i, j - 1);
    }
  }

  // ---------------------------------------------------------------------------
  // What ends up in the buffers

  /** One pass moves bytes from the front of each stream to the end of its buffer, in order. */
  lemma IterateMovesBytes(order: Order, s: LoopState)
    requires Consistent(s)
    ensures var r := Iterate(order, s);
      && r.stdout + Unread(r.world, StdoutRead) == s.stdout + Unread(s.world, StdoutRead)
      && r.stderr + Unread(r.world, StderrRead) == s.stderr + Unread(s.world, StderrRead)
  {
    match order {
      case ReadsThenWait =>
        var rd := ReadsKeepsStreams(s.world, s.stdout, s.stderr);
        PollKeepsStreams(rd.world, s.ended);
      case WaitThenReads =>
        var pl := Poll(s.world, s.ended);
        PollKeepsStreams(s.world, s.ended);
        var rd := ReadsKeepsStreams(pl.world, s.stdout, s.stderr);
    }
  }

  /** A read appends to the buffer exactly what it takes off the stream. */
  lemma ReadMovesBytes(w: World, fd: Fd, buffer: seq<byte>)
    ensures var r := ReadCall(w, fd, ReadSize);
      buffer + r.chunk + Unread(r.after, fd) == buffer + Unread(w, fd)
  {
    var r := ReadCall(w, fd, ReadSize);
    ReadTakesFront(w, fd, ReadSize);
    AppendAfter(buffer, r.chunk, Unread(r.after, fd), Unread(w, fd));
  }

  lemma AppendAfter(a: seq<byte>, b: seq<byte>, c: seq<byte>, d: seq<byte>)
    requires d == b + c
    ensures a + b + c == a + d
  {
  }

  lemma PrefixOfSum(a: seq<byte>, b: seq<byte>, c: seq<byte>)
    requires a + b == [] + c
    ensures a <= c
  {
    assert [] + c == c;
    assert c[..|a|] == a;
  }

  /** A read on one stream leaves what remains of the other stream as it was. */
  lemma ReadKeepsOther(w: World, fd: Fd, other: Fd)
    requires fd != other
    ensures Unread(ReadCall(w, fd, ReadSize).after, other) == Unread(w, other)
  {
    var r := ReadCall(w, fd, ReadSize);
    AdvanceKeepsUnread(w, other);
    assert Pipe(r.after, other) == Pipe(Advance(w), other);
  }

  lemma ReadsKeepsStreams(w: World, stdout: seq<byte>, stderr: seq<byte>) returns (r: ReadsOutcome)
    requires ValidWorld(w)
    ensures r == Reads(w, stdout, stderr)
    ensures r.stdout + Unread(r.world, StdoutRead) == stdout + Unread(w, StdoutRead)
    ensures r.stderr + Unread(r.world, StderrRead) == stderr + Unread(w, StderrRead)
  {
    r := Reads(w, stdout, stderr);
    var o := ReadCall(w, StdoutRead, ReadSize);
    ReadMovesBytes(w, StdoutRead, stdout);
    ReadKeepsOther(w, StdoutRead, StderrRead);
    if o.ret <= 0 {
      ReadMovesBytes(o.after, StderrRead, stderr);
      ReadKeepsOther(o.after, StderrRead, StdoutRead);
      assert stdout + o.chunk == stdout;
    }
  }

  lemma PollKeepsStreams(w: World, ended: bool)
    requires ValidWorld(w) && (ended ==> w.exited)
    ensures Unread(Poll(w, ended).world, StdoutRead) == Unread(w, StdoutRead)
    ensures Unread(Poll(w, ended).world, StderrRead) == Unread(w, StderrRead)
  {
    if !ended {
      var v := Advance(w);
      AdvanceKeepsUnread(w, StdoutRead);
      AdvanceKeepsUnread(w, StderrRead);
      assert Unread(WaitCall(w).after, StdoutRead) == Unread(v, StdoutRead);
      assert Unread(WaitCall(w).after, StderrRead) == Unread(v, StderrRead);
    }
  }

  /**
   * Whichever the order, the loop moves bytes from the front of each stream to the end
   * of its buffer: nothing is reordered, duplicated or invented.
   */
  lemma {:induction false} RunMovesBytes(order: Order, s: LoopState)
    requires Consistent(s)
    ensures var r := Run(order, s);
      && r.stdout + Unread(r.world, StdoutRead) == s.stdout + Unread(s.world, StdoutRead)
      && r.stderr + Unread(r.world, StderrRead) == s.stderr + Unread(s.world, StderrRead)
    decreases !s.ended, Lifetime(s.world), Buffered(s.world), !s.pipeEmpty
  {
    if !(s.ended && s.pipeEmpty) {
      IterateMovesBytes(order, s);
      RunMovesBytes(order, Iterate(order, s));
    }
  }

  /** Each buffer holds the start of what the child wrote to its stream, in order. */
  lemma CapturedIsPrefix(order: Order, w: World)
    requires ValidWorld(w)
    ensures CaptureRun(order, w).stdout <= Unread(w, StdoutRead)
    ensures CaptureRun(order, w).stderr <= Unread(w, StderrRead)
  {
    var r := CaptureRun(order, w);
    RunMovesBytes(order, Start(w));
    PrefixOfSum(r.stdout, Unread(r.world, StdoutRead), Unread(w, StdoutRead));
    PrefixOfSum(r.stderr, Unread(r.world, StderrRead), Unread(w, StderrRead));
  }

  /**
   * With the poll first, a pass that finds `ended` set and both reads empty made its
   * reads after the exit was seen, so both pipes are empty when the loop leaves.
   */
  ghost predicate DrainedWhenDone(s: LoopState) {
    s.ended && s.pipeEmpty ==> s.world.stdoutPipe == [] && s.world.stderrPipe == []
  }

  lemma {:induction false} WaitFirstDrains(s: LoopState)
    requires Consistent(s) && DrainedWhenDone(s)
    ensures var r := Run(WaitThenReads, s); r.world.exited && r.world.stdoutPipe == [] && r.world.stderrPipe == []
    decreases !s.ended, Lifetime(s.world), Buffered(s.world), !s.pipeEmpty
  {
    if !(s.ended && s.pipeEmpty) {
      var pl := Poll(s.world, s.ended);
      var rd := Reads(pl.world, s.stdout, s.stderr);
      assert DrainedWhenDone(Iterate(WaitThenReads, s));
      WaitFirstDrains(Iterate(WaitThenReads, s));
    }
  }

  /**
   * With the poll before the reads, the loop captures everything the child writes to
   * either stream, whatever the interleaving of its writes, its exit and the polls.
   */
  lemma WaitFirstCapturesEverything(w: World)
    requires ValidWorld(w)
    ensures CaptureRun(WaitThenReads, w).stdout == Unread(w, StdoutRead)
    ensures CaptureRun(WaitThenReads, w).stderr == Unread(w, StderrRead)
  {
    RunMovesBytes(WaitThenReads, Start(w));
    WaitFirstDrains(Start(w));
    var r := CaptureRun(WaitThenReads, w);
    assert Unread(r.world, StdoutRead) == [] && Unread(r.world, StderrRead) == [];
    assert [] + Unread(w, StdoutRead) == Unread(w, StdoutRead);
    assert [] + Unread(w, StderrRead) == Unread(w, StderrRead);
  }

  /** A child that writes "hi" to stdout and exits between the parent's stderr read and its waitpid. */
  function RaceWorld(): World {
    World(7, [ChildStep([], [], false), ChildStep([], [], false), ChildStep([104, 105], [], true)],
          false, false, [], [])
  }

  /**
   * As written (reads, then waitpid), the loop can leave in the very pass whose waitpid
   * first reports the exit, with no read after it: the child's last bytes are lost.
   */
  lemma ReadsFirstLosesOutput()
    ensures ValidWorld(RaceWorld())
    ensures Unread(RaceWorld(), StdoutRead) == [104, 105]
    ensures CaptureRun(ReadsThenWait, RaceWorld()).stdout == []
    ensures CaptureRun(ReadsThenWait, RaceWorld()).passes == [Pass(false, Some(false), Some(7))]
  {
    var w := RaceWorld();
    var s1 := Iterate(ReadsThenWait, Start(w));
    assert s1.ended && s1.pipeEmpty;
    assert CaptureRun(ReadsThenWait, w) == s1;
  }

  // ---------------------------------------------------------------------------
  // The loop itself

  /**
   * The reads of one pass: `pipe_empty` starts true and is cleared by a read that gets
   * data, stdout first; the stderr read is skipped when the stdout read got data.
   */
  method ReadPipes(child: Child, stdoutBuffer: CaptureBuffer, stderrBuffer: CaptureBuffer)
      returns (pipeEmpty: bool, stdoutRead: bool, ghost stderrRead: Option<bool>)
    requires stdoutBuffer != stderrBuffer && stdoutBuffer.Valid() && stderrBuffer.Valid()
    requires ValidWorld(child.world)
    modifies child, stdoutBuffer, stderrBuffer
    ensures stdoutBuffer.Valid() && stderrBuffer.Valid()
    ensures var rd := Reads(old(child.world), old(stdoutBuffer.Captured()), old(stderrBuffer.Captured()));
      && stdoutRead == rd.stdoutRead && stderrRead == rd.stderrRead
      && pipeEmpty == (!rd.stdoutRead && rd.stderrRead == Some(false))
      && child.world == rd.world
      && stdoutBuffer.Captured() == rd.stdout && stderrBuffer.Captured() == rd.stderr
  {
    pipeEmpty := true;
    stdoutRead := stdoutBuffer.ReadFrom(child, StdoutRead);
    pipeEmpty := pipeEmpty && !stdoutRead;
    stderrRead := None;
    if pipeEmpty {
      var got := stderrBuffer.ReadFrom(child, StderrRead);
      stderrRead := Some(got);
      pipeEmpty := pipeEmpty && !got;
    }
  }

  /** The exit check of a pass: while `ended` is unset, poll waitpid without blocking and set `ended` on any non-zero result. */
  method PollChild(child: Child, ended: bool) returns (endedAfter: bool, ghost wait: Option<int>)
    requires ValidWorld(child.world) && (ended ==> child.world.exited)
    modifies child
    ensures var pl := Poll(old(child.world), ended);
      endedAfter == pl.ended && wait == pl.wait && child.world == pl.world
  {
    endedAfter := ended;
    wait := None;
    if !ended {
      var waitResult := child.WaitPid();
      wait := Some(waitResult);
      if waitResult != 0 {
        endedAfter := true;
      }
    }
  }

  /** One pass of the loop body, with its calls in the given order. */
  method OnePass(child: Child, order: Order, stdoutBuffer: CaptureBuffer, stderrBuffer: CaptureBuffer,
                 ended: bool, ghost pipeEmpty: bool, ghost passes: seq<Pass>)
      returns (endedAfter: bool, pipeEmptyAfter: bool, ghost pass: Pass)
    requires stdoutBuffer != stderrBuffer && stdoutBuffer.Valid() && stderrBuffer.Valid()
    requires ValidWorld(child.world) && (ended ==> child.world.exited)
    modifies child, stdoutBuffer, stderrBuffer
    ensures stdoutBuffer.Valid() && stderrBuffer.Valid()
    ensures LoopState(child.world, endedAfter, pipeEmptyAfter, stdoutBuffer.Captured(), stderrBuffer.Captured(), passes + [pass])
         == Iterate(order, LoopState(old(child.world), ended, pipeEmpty, old(stdoutBuffer.Captured()), old(stderrBuffer.Captured()), passes))
  {
    ghost var wait: Option<int> := None;
    endedAfter := ended;
    if order == WaitThenReads {
      endedAfter, wait := PollChild(child, ended);
    }
    var stdoutRead; ghost var stderrRead;
    pipeEmptyAfter, stdoutRead, stderrRead := ReadPipes(child, stdoutBuffer, stderrBuffer);
    if order == ReadsThenWait {
      endedAfter, wait := PollChild(child, ended);
    }
    pass := Pass(stdoutRead, stderrRead, wait);
  }

  /**
   * The polling loop of runCommand. Each pass tries stdout, then stderr only if stdout
   * gave nothing, and calls waitpid while `ended` is not yet set; the loop leaves once
   * `ended` is set and a pass read nothing. With ReadsThenWait the calls come in the
   * order of bob.cc; WaitThenReads moves the waitpid check before the reads.
   */
  method CaptureOutput(child: Child, order: Order)
      returns (stdoutBuffer: CaptureBuffer, stderrBuffer: CaptureBuffer, ghost passes: seq<Pass>)
    requires ValidWorld(child.world)
    modifies child
    ensures fresh(stdoutBuffer) && fresh(stderrBuffer) && stdoutBuffer != stderrBuffer
    ensures stdoutBuffer.Valid() && stderrBuffer.Valid()
    ensures var r := CaptureRun(order, old(child.world));
      && stdoutBuffer.Captured() == r.stdout && stderrBuffer.Captured() == r.stderr
      && child.world == r.world && passes == r.passes
    ensures child.world.exited
  {
    stdoutBuffer := new CaptureBuffer();
    stderrBuffer := new CaptureBuffer();
    var ended := false;
    var pipeEmpty := true;
    passes := [];
    ghost var goal := CaptureRun(order, child.world);
    while !(ended && pipeEmpty)
      invariant fresh(stdoutBuffer) && fresh(stderrBuffer) && stdoutBuffer != stderrBuffer
      invariant stdoutBuffer.Valid() && stderrBuffer.Valid()
      invariant Consistent(LoopState(child.world, ended, pipeEmpty, stdoutBuffer.Captured(), stderrBuffer.Captured(), passes))
      invariant Run(order, LoopState(child.world, ended, pipeEmpty, stdoutBuffer.Captured(), stderrBuffer.Captured(), passes)) == goal
      decreases !ended, Lifetime(child.world), Buffered(child.world), !pipeEmpty
    {
      ghost var pass;
      ended, pipeEmpty, pass := OnePass(child, order, stdoutBuffer, stderrBuffer, ended, pipeEmpty, passes);
      passes := passes + [pass];
    }
  }
}
