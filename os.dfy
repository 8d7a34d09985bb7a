/**
 * The operating-system side of runCommand, reduced to what the capture loop
 * observes: the child process, the two pipes its stdout and stderr are
 * redirected into, and the two system calls the loop makes on them, read on a
 * non-blocking read end and waitpid with WNOHANG.
 *
 * How the child's progress interleaves with the parent's calls is an input:
 * the child follows a finite script and takes its next step just before each
 * of the parent's system calls, so every interleaving of writes, exit and
 * polls is one script.
 */
module Os {

  newtype byte = x: int | 0 <= x < 256

  /** The parent's read ends of the child's stdout pipe and stderr pipe. */
  datatype Fd = StdoutRead | StderrRead

  /** What the child does between two system calls of the parent: write to its stdout, write to its stderr, perhaps exit. */
  datatype ChildStep = ChildStep(toStdout: seq<byte>, toStderr: seq<byte>, exits: bool)

  /**
   * The child and its pipes: the steps it still has to take, whether it has exited
   * and whether its exit status has been collected, and the bytes sitting unread
   * in each pipe.
   */
  datatype World = World(pid: int, script: seq<ChildStep>, exited: bool, reaped: bool,
                         stdoutPipe: seq<byte>, stderrPipe: seq<byte>)

  /** A child that fork() created: a positive pid, and only an exited child can have been reaped. */
  predicate ValidWorld(w: World) {
    w.pid > 0 && (w.reaped ==> w.exited)
  }

  function Pipe(w: World, fd: Fd): seq<byte> {
    match fd
    case StdoutRead => w.stdoutPipe
    case StderrRead => w.stderrPipe
  }

  function Written(step: ChildStep, fd: Fd): seq<byte> {
    match fd
    case StdoutRead => step.toStdout
    case StderrRead => step.toStderr
  }

  /** Everything the child will still write to a stream, up to and including its exiting step. */
  function Unwritten(script: seq<ChildStep>, fd: Fd): seq<byte> {
    if script == [] then []
    else Written(script[0], fd) + (if script[0].exits then [] else Unwritten(script[1..], fd))
  }

  /** All the bytes the parent can still read from a stream: those in the pipe, then those the child has yet to write. */
  function Unread(w: World, fd: Fd): seq<byte> {
    Pipe(w, fd) + (if w.exited then [] else Unwritten(w.script, fd))
  }

  /** A bound on the system calls the child can still outlive: it exits at the latest when its script runs out. */
  function Lifetime(w: World): nat {
    if w.exited then 0 else |w.script| + 1
  }

  /** The bytes sitting in the two pipes. */
  function Buffered(w: World): nat {
    |w.stdoutPipe| + |w.stderrPipe|
  }

  /**
   * The child's progress before one system call of the parent: it takes the next
   * step of its script, or exits when the script is used up. A child that has
   * exited does nothing more.
   */
  function Advance(w: World): (r: World)
    ensures r.pid == w.pid && r.reaped == w.reaped && (w.exited ==> r == w)
    ensures ValidWorld(w) ==> ValidWorld(r)
    ensures !w.exited ==> Lifetime(r) < Lifetime(w)
  {
    if w.exited then w
    else if w.script == [] then w.(exited := true)
    else
      var step := w.script[0];
      w.(script := w.script[1..],
         exited := step.exits,
         stdoutPipe := w.stdoutPipe + step.toStdout,
         stderrPipe := w.stderrPipe + step.toStderr)
  }

  /** What a read call returns: the count, the bytes copied into the caller's buffer, and the world afterwards. */
  datatype ReadReply = ReadReply(ret: int, chunk: seq<byte>, after: World)

  /** The world with the pipe behind `fd` replaced by `p`. */
  function WithPipe(w: World, fd: Fd, p: seq<byte>): (r: World)
    ensures Pipe(r, fd) == p
    ensures fd == StdoutRead ==> r.stderrPipe == w.stderrPipe
    ensures fd == StderrRead ==> r.stdoutPipe == w.stdoutPipe
    ensures r.pid == w.pid && r.reaped == w.reaped && r.exited == w.exited && r.script == w.script
  {
    match fd
    case StdoutRead => w.(stdoutPipe := p)
    case StderrRead => w.(stderrPipe := p)
  }

  /**
   * The read system call on a non-blocking read end. It copies up to `count` bytes
   * from the front of the pipe. An empty pipe gives -1 (EAGAIN): the parent keeps
   * both write ends open, so end-of-file (0) is never reported for a positive count.
   */
  function ReadCall(w: World, fd: Fd, count: nat): (r: ReadReply)
    ensures r.ret > 0 ==> r.ret == |r.chunk| <= count
    ensures r.ret <= 0 ==> r.chunk == [] && r.after == Advance(w)
    ensures r.ret <= 0 ==> r.ret == (if count == 0 then 0 else -1)
    ensures r.ret > 0 <==> count > 0 && Pipe(Advance(w), fd) != []
    ensures Pipe(Advance(w), fd) == r.chunk + Pipe(r.after, fd)
    ensures r.after.pid == w.pid && r.after.reaped == w.reaped && r.after.exited == Advance(w).exited
    ensures r.after.script == Advance(w).script
    ensures fd == StdoutRead ==> r.after.stderrPipe == Advance(w).stderrPipe
    ensures fd == StderrRead ==> r.after.stdoutPipe == Advance(w).stdoutPipe
  {
    var v := Advance(w);
    var p := Pipe(v, fd);
    var n := if count < |p| then count else |p|;
    if n == 0 then
      ReadReply(if count == 0 then 0 else -1, [], v)
    else
      assert p == p[..n] + p[n..];
      ReadReply(n, p[..n], WithPipe(v, fd, p[n..]))
  }

  /**
   * A read neither loses nor invents data: the bytes it returns are the next ones of
   * the stream, in order, and the rest remain readable after it.
   */
  lemma ReadTakesFront(w: World, fd: Fd, count: nat)
    ensures var r := ReadCall(w, fd, count); Unread(w, fd) == r.chunk + Unread(r.after, fd)
  {
    var r := ReadCall(w, fd, count);
    var v := Advance(w);
    AdvanceKeepsUnread(w, fd);
    PipeSplit(v, r.after, fd, r.chunk);
  }

  /** The child's progress neither loses nor invents data: it only moves bytes from its script into the pipe. */
  lemma AdvanceKeepsUnread(w: World, fd: Fd)
    ensures Unread(Advance(w), fd) == Unread(w, fd)
  {
    if !w.exited && w.script != [] {
      var step := w.script[0];
      var later := if step.exits then [] else Unwritten(w.script[1..], fd);
      assert Unwritten(w.script, fd) == Written(step, fd) + later;
      assert Pipe(Advance(w), fd) == Pipe(w, fd) + Written(step, fd);
      assert Unread(Advance(w), fd) == Pipe(w, fd) + Written(step, fd) + later;
    }
  }

  /** Taking `chunk` off the front of a pipe takes it off the front of the stream. */
  lemma PipeSplit(v: World, after: World, fd: Fd, chunk: seq<byte>)
    requires after.exited == v.exited && after.script == v.script
    requires Pipe(v, fd) == chunk + Pipe(after, fd)
    ensures Unread(v, fd) == chunk + Unread(after, fd)
  {
  }

  /** What a waitpid call returns, and the world afterwards. */
  datatype WaitReply = WaitReply(ret: int, after: World)

  /**
   * The waitpid system call without blocking: 0 while the child runs; its pid once, when it has
   * exited, which collects the exit status; -1 (ECHILD) when it was already collected.
   */
  function WaitCall(w: World): (r: WaitReply)
    requires ValidWorld(w)
    ensures ValidWorld(r.after)
    ensures r.ret == 0 <==> !Advance(w).exited
    ensures r.ret != 0 ==> r.after.exited
    ensures r.after.pid == w.pid && r.after.exited == Advance(w).exited && r.after.script == Advance(w).script
    ensures r.after.stdoutPipe == Advance(w).stdoutPipe && r.after.stderrPipe == Advance(w).stderrPipe
  {
    var v := Advance(w);
    if v.reaped then WaitReply(-1, v)
    else if v.exited then WaitReply(v.pid, v.(reaped := true))
    else WaitReply(0, v)
  }

  /** The kernel's view of the child, which the parent changes only through its system calls. */
  class Child {
    var world: World

    constructor (w: World)
      ensures world == w
    {
      world := w;
    }

    /** The read system call: `chunk` holds the bytes it copies into the caller's buffer. */
    method Read(fd: Fd, count: nat) returns (ret: int, chunk: seq<byte>)
      modifies this
      ensures ReadReply(ret, chunk, world) == ReadCall(old(world), fd, count)
    {
      var r := ReadCall(world, fd, count);
      ret, chunk, world := r.ret, r.chunk, r.after;
    }

    /** The waitpid system call with WNOHANG. */
    method WaitPid() returns (ret: int)
      requires ValidWorld(world)
      modifies this
      ensures WaitReply(ret, world) == WaitCall(old(world))
    {
      var r := WaitCall(world);
      ret, world := r.ret, r.after;
    }
  }
}
