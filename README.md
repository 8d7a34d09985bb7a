# bob: a verified model of its command-line check, tokenizer and capture loop

bob reads a "bobfile", takes its text as one shell-like command line, runs
that command as a child process with its stdout and stderr redirected into
two pipes, and captures both streams until the child exits. This project
models the sequential core of bob.cc in Dafny and proves properties of it:

- `cli.dfy` (module `Cli`): `readCommandLineArgs`. Exactly one positional
  argument is accepted; anything else is the fatal usage error, returned as a
  `Failure` that carries the message and exit status 1.
- `tokenizer.dfy` (module `Tokenizer`): `parseCommand` and its
  `get_next_token` lambda. The text is split on space, tab and newline. The
  first raw piece is the program name, which may be empty. Later empty pieces
  are dropped, and a null sentinel closes the argument vector.
  - `ParseCommand` is the cursor loop of the source.
  - `Parse` is its specification, built on the recursive split `Words`.
  - `Scan` is an independent character-at-a-time reference tokenizer, and
    `Join` writes words back out, for a round trip.
- `os.dfy` (module `Os`): the two system calls the loop makes, on a model of
  the child and its pipes.
  - `read` on a non-blocking read end, and `waitpid` with `WNOHANG`.
  - The child follows a finite script of steps. It takes one step (writes to
    either stream, perhaps exits) before each of the parent's system calls.
    Every interleaving of the child's writes, its exit and the parent's polls
    is therefore one script.
- `capture.dfy` (module `Capture`): the `read_into_buffer` lambda on a growable
  buffer (class `CaptureBuffer`) and the `while (!(ended && pipe_empty))` loop
  (method `CaptureOutput`).
  - The loop is proved against a functional specification, `CaptureRun`.
  - Properties of the loop are proved on `CaptureRun`: the order in which a pass
    makes its calls, that no byte is reordered or invented, and whether anything
    is lost.
  - The loop takes the order of the calls within a pass as a parameter.
    `ReadsThenWait` is the order of bob.cc. `WaitThenReads` is the corrected
    order (see Findings).
- `wrappers.dfy` (module `Wrappers`): `Option` and `Result`.

Two points about the code shape the model. The program name
(`arguments[0]`) is never checked for emptiness, so a source that starts with a
delimiter gives an empty program name (`LeadingDelimiterGivesEmptyName`), while
every later empty token is dropped. The capture loop is meant to drain both pipes
after the child has exited, but as written it can leave in the pass whose waitpid
first reports the exit, with no read after it (see Findings).

## Model

| member | source | states |
|---|---|---|
| Cli.ReadCommandLineArgs | bob.cc:29-38 | fails exactly when argc is not 2, always with the usage message and exit status 1; otherwise bob_file is argv[1] |
| Tokenizer.CString | bob.cc:65-68 | strpbrk and strlen see the text up to the first NUL: a prefix of the source, without NUL, followed by NUL or the end |
| Tokenizer.FindDelimiter | bob.cc:59-65 | strpbrk as an offset: no delimiter before it, and a delimiter at it unless it is the end of the text |
| Tokenizer.FindDelimiterAt | bob.cc:65 | the first delimiter is unique: any offset with those properties is the one strpbrk returns |
| Tokenizer.Words | bob.cc:85-92 | every word kept after the program name is non-empty and free of delimiters |
| Tokenizer.Parse | bob.cc:57-101 | program name is the text before the first delimiter, empty exactly when the text is empty or starts with one; arguments[0] is the program name, the middle entries are non-empty delimiter-free tokens, the last is the single null sentinel, and argument_count is the vector's length |
| Tokenizer.NextToken | bob.cc:63-79 | get_next_token returns a delimiter-free token; either it moves the cursor one past the next delimiter, or there is none and it sets ended and returns the rest |
| Tokenizer.ParseCommand | bob.cc:57-101 | the cursor loop terminates and builds exactly the command Parse specifies |
| Tokenizer.WordsAtToken | bob.cc:74-92 | each get_next_token call takes the next piece off the text: the words from the cursor are that piece (if not empty), then the words after it |
| Tokenizer.TokenStep | bob.cc:85-92 | one pass of the loop keeps the argument vector on course: an empty token is skipped, any other is pushed |
| Tokenizer.WordsMatchScan | bob.cc:85-92 | the split equals a character-at-a-time scan: the kept tokens are exactly the maximal runs of non-delimiters, in order |
| Tokenizer.WordsOfJoin | bob.cc:85-92 | round trip: splitting non-empty delimiter-free words joined by single spaces gives the words back |
| Tokenizer.ParseOfJoin | bob.cc:81-98 | round trip: parsing a program name and arguments joined by single spaces gives that name and the vector [name, arguments..., null] |
| Tokenizer.ParseMatchesScan | bob.cc:57-101 | for every source: arguments[0] is the text before the first delimiter, then come exactly the maximal runs of non-delimiters after it, in order, then the null sentinel |
| Tokenizer.ParseAtDelimiter | bob.cc:65-92 | the text before the first delimiter is the program name, and the words after it are the arguments |
| Tokenizer.LeadingDelimiterGivesEmptyName | bob.cc:81-84 | a source starting with a delimiter gives an empty program name, which is still arguments[0] |
| Tokenizer.EchoHelloWorld | bob.cc:57-101 | "echo hello world" gives program name echo and arguments [echo, hello, world, null] |
| Tokenizer.RepeatedWhitespace | bob.cc:85-92 | "echo   a\tb\n" gives [echo, a, b, null], with no empty arguments |
| Os.ReadCall | bob.cc:154 | read returns at most 64 bytes from the front of the pipe; 0 when asked for no bytes, -1 (EAGAIN) when the pipe is empty; the other pipe, the pid and the exit state are untouched |
| Os.ReadTakesFront | bob.cc:154 | a read neither loses nor invents data: the stream is the bytes returned, then what stays readable |
| Os.AdvanceKeepsUnread | bob.cc:154 | the child's progress between two calls moves bytes from its script into the pipe and loses none |
| Os.WaitCall | bob.cc:182 | waitpid returns 0 exactly while the child runs, its pid once it has exited (collecting the status), and -1 after that |
| Os.Child.Read | bob.cc:154 | the read system call on the kernel's state, as ReadCall |
| Os.Child.WaitPid | bob.cc:182 | the waitpid system call on the kernel's state, as WaitCall |
| Capture.CaptureBuffer.constructor | bob.cc:146-150 | a buffer starts as 64 zero bytes with index 0 and nothing captured |
| Capture.CaptureBuffer.Captured | bob.cc:146-150 | buffer[0..index) is the chunks read so far, in order |
| Capture.CaptureBuffer.ReadFrom | bob.cc:152-169 | read_into_buffer returns true exactly when read returned a positive count; then the chunk is appended and index moves by ret; on 0 or a negative return nothing changes; size == index + 64 always |
| Capture.CaptureBuffer.Store | bob.cc:154-167 | the bytes read land at index, the vector grows by ret and index moves by ret, keeping size == index + 64 and the data equal to the chunks in order |
| Capture.ReadIntoRoom | bob.cc:154-167 | writing a chunk of at most 64 bytes into the room at index and then resizing keeps the buffer's layout with that chunk appended |
| Capture.Reads | bob.cc:176-178 | the stderr read happens exactly when the stdout read got nothing; once the child has exited, a pass that reads something shrinks the pipes and one that reads nothing found them both empty |
| Capture.Poll | bob.cc:181-186 | waitpid is called exactly when ended is not yet set; ended becomes true on any non-zero result, -1 included, and only for a child that has exited |
| Capture.Iterate | bob.cc:174-187 | one pass: ended never reverts, the flags after it are those its calls determine, and each pass either sees the child closer to exiting or, once it has exited, drains the pipes |
| Capture.Run | bob.cc:174-187 | the loop terminates for every script, in a state where ended and pipe_empty are both set and the child has exited |
| Capture.CaptureKeepsRules | bob.cc:174-187 | every run follows the rules: stderr read skipped exactly when stdout read something; waitpid called in the first pass and then exactly while every earlier call returned 0; exit after the first pass with ended set and both reads empty, never before |
| Capture.EndedIsFinal | bob.cc:181-186 | once ended is set it stays set and no later pass calls waitpid |
| Capture.RunMovesBytes | bob.cc:174-187 | the loop moves bytes from the front of each stream to the end of its buffer: nothing is reordered, duplicated or invented |
| Capture.CapturedIsPrefix | bob.cc:174-187 | each buffer holds the start of what the child wrote to its stream, in order |
| Capture.ReadsFirstLosesOutput | bob.cc:174-187 | as written, a child that writes "hi" and exits between the stderr read and waitpid has its output lost: the loop leaves after one pass with nothing captured |
| Capture.WaitFirstCapturesEverything | bob.cc:174-187 | with waitpid before the reads, the loop captures everything the child writes to either stream, whatever the interleaving |
| Capture.ReadPipes | bob.cc:176-178 | the two reads of a pass, with the short circuit, as Reads specifies; both buffers keep their layout |
| Capture.PollChild | bob.cc:181-186 | the waitpid check of a pass, as Poll specifies |
| Capture.OnePass | bob.cc:174-187 | one pass of the loop body, in the given order, as Iterate specifies |
| Capture.CaptureOutput | bob.cc:146-187 | the loop terminates, and its buffers, the child's state and its passes are those CaptureRun specifies; the child has exited when it ends; both buffers keep size == index + 64 |

## Left out

- fork, pipe, dup2, execvp and fcntl(O_NONBLOCK) (bob.cc:125-144) are process and pipe set-up. The model starts from a child whose two pipes are already redirected and non-blocking.
- The child's fall-through after a failed execvp (bob.cc:136-139) is process-level behaviour. In the model it is one more child that writes and exits.
- readEntireFile (bob.cc:40-49) is file I/O. Its buffer has no NUL terminator, so strpbrk and strlen can read past its end. The tokenizer's input is taken as a finite string, and the model reads up to the first NUL in it or to its end (`CString`).
- fatal's output and exit (bob.cc:20-27) are console output. A usage error is a `Failure` value with the message and exit status.
- print_buffer and the headers (bob.cc:189-199) are console output. The buffers' contents are modelled: `CaptureBuffer.Valid` states that each vector holds the captured bytes followed by 64 zero bytes. print_buffer prints the whole vector, so those 64 NUL bytes follow each stream's output.
- destroyCommand (bob.cc:103-110) is memory release, which has no counterpart in Dafny.
- main (bob.cc:202-218) is the glue between the modelled operations, and its commented-out debug printing is not code.
- The commented-out printing inside read_into_buffer (bob.cc:161-165) is compiled out.
- Os.ReadCall: read never returns 0 for a positive count (end of file), because the parent never closes its copies of the write ends. Errors other than EAGAIN are not produced. read_into_buffer treats 0 and every negative return alike, and ReadFrom models both branches.
- Os.WaitCall: -1 arises only after the status was collected (ECHILD). Interrupted waits and other errors are not produced; the loop would treat them like -1.
- The child's eventual exit: the child exits at the latest when its script runs out. A child that never exits, for which the loop never ends, is not modelled.
- Capture.CaptureOutput: the bytes are modelled as values in a sequence. The child's concurrency is reduced to the interleaving that the script fixes.
- Tokenizer.ParseCommand: the C strings are copied into fresh arrays in the source. The model uses string values, so allocation, the NUL terminators of the tokens and `delete[]` of empty tokens are not modelled.

## Findings

| source | as written | input that shows it | evidently intended | confidence | as-written member | corrected member |
|---|---|---|---|---|---|---|
| bob.cc:174-187 | each pass reads stdout and stderr, then calls waitpid, and the loop condition is checked right after; in the pass whose waitpid first reports the exit, the loop leaves if both reads found nothing, with no read after the exit was seen | the child writes "hi" to stdout and exits after the parent's stderr read and before its waitpid: the first pass reads nothing, waitpid returns the pid, and the loop leaves with "hi" still in the pipe | every byte the child wrote is captured, since the loop is meant to drain the pipes after the child has exited; moving the waitpid check before the reads does that | not executed | Capture.ReadsFirstLosesOutput | Capture.WaitFirstCapturesEverything |
