/**
 Command execution (src/commands.c) and the response a server makes of it. The child process, the
 allocator and `strerror` are inputs, collected in a `World`; everything the program itself decides
 is a function of the request and that world.
 */
module Commands {
  import opened Base
  import opened Protocol
  import Shell
  import B = Buffer

  const READ_SIZE: nat := 4096
  const ERROR_TEXT_SIZE: nat := 256
  const NEWLINE: byte := 10

  datatype Errno = EINVAL | ENOMEM | EMSGSIZE | EIO | ESPAWN

  datatype Outcome = Output(bytes: seq<byte>) | Failed(errno: Errno)

  /** What `strerror` says for each error. */
  datatype Messages = Messages(
    einval: seq<byte>, enomem: seq<byte>, emsgsize: seq<byte>, eio: seq<byte>, espawn: seq<byte>)

  function Strerror(m: Messages, errno: Errno): seq<byte> {
    match errno
    case EINVAL => m.einval
    case ENOMEM => m.enomem
    case EMSGSIZE => m.emsgsize
    case EIO => m.eio
    case ESPAWN => m.espawn
  }

  /**
   What the outside does to one request: whether the two command strings can be allocated and the
   child spawned, everything the child writes, how many captured bytes the allocator can hold,
   whether reading the pipe ends in an error, whether the child exits with status zero, the text
   `strerror` has for each error, and whether `snprintf` can format it.
   */
  datatype World = World(
    strings: (bool, bool), spawned: bool, produced: seq<byte>, memory: nat,
    readError: bool, exitedZero: bool, messages: Messages, formatted: bool)

  // ---- Capturing ----

  /** The end of the first 4096-byte chunk that cannot be kept under a limit. */
  function FirstOverrun(total: nat, limit: nat): nat {
    Min(total, (limit / READ_SIZE + 1) * READ_SIZE)
  }

  function Captured(w: World, maxSize: nat): Outcome {
    var limit := Min(maxSize, w.memory);
    if !w.spawned then Failed(ESPAWN)
    else if |w.produced| > limit then
      Failed(if FirstOverrun(|w.produced|, limit) > maxSize then EMSGSIZE else ENOMEM)
    else if w.readError || !w.exitedZero then Failed(EIO)
    else Output(w.produced)
  }

  /** The bounded capture loop; `fread` delivers full chunks until the pipe ends or fails. */
  method RunCommand(w: World, maxSize: nat) returns (outcome: Outcome)
    ensures outcome == Captured(w, maxSize)
  {
    if !w.spawned {
      return Failed(ESPAWN);
    }
    var output: seq<byte> := [];
    var failure: Option<Errno> := None;
    var limit := Min(maxSize, w.memory);
    while true
      invariant failure.None? && output <= w.produced
      invariant |output| <= limit && |output| % READ_SIZE == 0
      decreases |w.produced| - |output|
    {
      var size := Min(READ_SIZE, |w.produced| - |output|);
      var chunk := w.produced[|output|..|output| + size];
      var memory := |output| + size <= w.memory;
      if size > 0 {
        var appended := B.Appended(output, maxSize, chunk, memory);
        if appended.None? {
          ChunkOverrun(|w.produced|, limit, |output|);
          failure := Some(if |output| + size > maxSize then EMSGSIZE else ENOMEM);
          break;
        }
        output := appended.value;
      }
      if size < READ_SIZE {
        assert output == w.produced;
        if w.readError {
          failure := Some(EIO);
        }
        break;
      }
    }
    if !w.exitedZero && failure.None? {
      failure := Some(EIO);
    }
    if failure.Some? {
      return Failed(failure.value);
    }
    return Output(output);
  }

  lemma ChunkOverrun(total: nat, limit: nat, start: nat)
    requires start % READ_SIZE == 0 && start <= limit && start <= total
    requires start + Min(READ_SIZE, total - start) > limit
    ensures total > limit && FirstOverrun(total, limit) == start + Min(READ_SIZE, total - start)
  {
    assert limit / READ_SIZE == start / READ_SIZE;
  }

  /** Capturing never truncates: it yields all the child wrote, within the limit, or an error. */
  lemma CapturedWholeOrError(w: World, maxSize: nat)
    ensures Captured(w, maxSize).Output? <==>
              && w.spawned && |w.produced| <= maxSize && |w.produced| <= w.memory
              && !w.readError && w.exitedZero
    ensures Captured(w, maxSize).Output? ==> Captured(w, maxSize).bytes == w.produced
    ensures w.spawned && |w.produced| > maxSize && w.memory >= maxSize ==> Captured(w, maxSize) == Failed(EMSGSIZE)
  {
    if w.spawned && |w.produced| > maxSize && w.memory >= maxSize {
      assert FirstOverrun(|w.produced|, maxSize) > maxSize;
    }
  }

  /** The chunk that does not fit: the first whose end passes the limit, of at most 4096 bytes. */
  lemma FirstOverrunIs(total: nat, limit: nat)
    requires total > limit
    ensures var end := FirstOverrun(total, limit);
            && limit < end <= total && (end == total || end % 4096 == 0)
            && (end - 1) / 4096 * 4096 <= limit
  {
  }

  /** Each error by its cause, and no other error. */
  lemma CaptureErrors(w: World, maxSize: nat)
    ensures var limit := Min(maxSize, w.memory);
            var overrun := w.spawned && |w.produced| > limit;
            && (Captured(w, maxSize) == Failed(ESPAWN) <==> !w.spawned)
            && (Captured(w, maxSize) == Failed(EIO) <==>
                  w.spawned && |w.produced| <= limit && (w.readError || !w.exitedZero))
            && (Captured(w, maxSize) == Failed(EMSGSIZE) <==>
                  overrun && FirstOverrun(|w.produced|, limit) > maxSize)
            && (Captured(w, maxSize) == Failed(ENOMEM) <==>
                  overrun && FirstOverrun(|w.produced|, limit) <= maxSize)
            && Captured(w, maxSize) != Failed(EINVAL)
  {
  }

  // ---- The three commands ----

  function Trimmed(o: Outcome): Outcome {
    if o.Output? && o.bytes != [] && o.bytes[|o.bytes| - 1] == NEWLINE
    then Output(o.bytes[..|o.bytes| - 1]) else o
  }

  predicate Accepted(r: Request) {
    match r.kind
    case Ls => r.argument != [] && Shell.NulFree(r.argument)
    case Pwd => r.argument == []
    case Cat => r.argument != [] && r.argument[0] == Shell.SLASH && Shell.NulFree(r.argument)
  }

  function Execute(r: Request, w: World): Outcome {
    if !Accepted(r) then Failed(EINVAL)
    else if r.kind == Pwd then Trimmed(Captured(w, UINT16_MAX))
    else if w.strings != (true, true) then Failed(ENOMEM)
    else Captured(w, UINT16_MAX)
  }

  /** A request no command is run for, read off its bytes. */
  predicate Malformed(r: Request) {
    match r.kind
    case Ls => r.argument == [] || 0 in r.argument
    case Pwd => r.argument != []
    case Cat => r.argument == [] || r.argument[0] != 47 || 0 in r.argument
  }

  /**
   The outcome of a request: EINVAL exactly when it is malformed, and otherwise that of capturing at
   most 65535 bytes, less the last one for `pwd` when that is a newline.
   */
  lemma ExecuteSays(r: Request, w: World)
    ensures Execute(r, w) == Failed(EINVAL) <==> Malformed(r)
    ensures !Malformed(r) ==>
              var captured := Captured(w, 65535);
              match r.kind
              case Pwd =>
                if captured.Output? && captured.bytes != [] && captured.bytes[|captured.bytes| - 1] == 10
                then Execute(r, w) == Output(captured.bytes[..|captured.bytes| - 1])
                else Execute(r, w) == captured
              case _ => Execute(r, w) == if w.strings == (true, true) then captured else Failed(ENOMEM)
  {
  }

  /**
   Dispatch as the source does it: check, build the command line, run it. `line` is the string
   handed to the shell, which reads it as the fixed program applied to exactly the argument.
   */
  method RunRequest(r: Request, w: World, leftover: seq<byte>) returns (outcome: Outcome, line: Option<seq<byte>>)
    ensures outcome == Execute(r, w)
    ensures line.Some? <==> !Malformed(r) && r.kind != Pwd && w.strings == (true, true)
    ensures line.Some? ==>
              Shell.Lex(Shell.CString(line.value)) ==
                Some((if r.kind == Ls then [Shell.Word([108, 115]), Shell.Word([45, 49]), Shell.Word([45, 45])]
                      else [Shell.Word([99, 97, 116]), Shell.Word([45, 45])])
                     + [Shell.Word(r.argument), Shell.IoNumber([50]), Shell.Redirect,
                        Shell.Word([47, 100, 101, 118, 47, 110, 117, 108, 108])])
  {
    line := None;
    if r.kind == Pwd {
      if r.argument != [] {
        return Failed(EINVAL), None;
      }
      outcome := RunCommand(w, UINT16_MAX);
      outcome := Trimmed(outcome);
      return;
    }
    if r.kind == Cat && (r.argument == [] || r.argument[0] != Shell.SLASH) {
      return Failed(EINVAL), None;
    }
    var program: Shell.Program := if r.kind == Ls then Shell.LS else Shell.CAT;
    line := Shell.BuildCommand(program, r.argument, w.strings, leftover);
    if line.None? {
      return Failed(if r.argument == [] || !Shell.NulFree(r.argument) then EINVAL else ENOMEM), None;
    }
    Shell.RequestsAreCounted(program, r.argument);
    if r.kind == Ls {
      Shell.LsLexes(r.argument);
    } else {
      Shell.CatLexes(r.argument);
    }
    outcome := RunCommand(w, UINT16_MAX);
  }

  // ---- Responses ----

  /** `ERROR: ` */
  const ERROR_PREFIX: seq<byte> := [69, 82, 82, 79, 82, 58, 32]

  function ErrorText(message: seq<byte>): seq<byte> {
    var text := ERROR_PREFIX + message;
    if |text| >= ERROR_TEXT_SIZE then text[..ERROR_TEXT_SIZE - 1] else text
  }

  lemma ExecuteBounded(r: Request, w: World)
    ensures Execute(r, w).Output? ==> |Execute(r, w).bytes| <= UINT16_MAX
  {
  }

  /** The response data for one request, or None when the error text cannot be formatted. */
  function Answer(r: Request, w: World): (p: Option<Payload>)
    ensures p.None? <==> Execute(r, w).Failed? && !w.formatted
  {
    match Execute(r, w)
    case Output(bytes) => ExecuteBounded(r, w); Some(bytes)
    case Failed(errno) => if w.formatted then Some(ErrorText(Strerror(w.messages, errno))) else None
  }

  /**
   What an answer says. A success is the child's whole output, of which `pwd` drops the last byte
   exactly when that is a newline. A failure is `ERROR: ` and the text of the error that occurred, of
   which at most the end is missing, and only when it is longer than 248 bytes.
   */
  lemma AnswerSays(r: Request, w: World)
    requires Answer(r, w).Some?
    ensures var text := Answer(r, w).value;
            match Execute(r, w)
            case Output(_) =>
              var trimmed := r.kind == Pwd && w.produced != [] && w.produced[|w.produced| - 1] == 10;
              text == if trimmed then w.produced[..|w.produced| - 1] else w.produced
            case Failed(errno) =>
              var whole := [69, 82, 82, 79, 82, 58, 32] + Strerror(w.messages, errno);
              text == if |whole| <= 255 then whole else whole[..255]
  {
    CapturedWholeOrError(w, UINT16_MAX);
  }
}
