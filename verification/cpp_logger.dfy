/**
 * `xiaochufuji::Logger` and `LogQueue` (C++): messages are formatted with
 * `{}` placeholders, prefixed with their level and queued; a worker takes
 * them off the queue in order and writes them to the log file. The file is
 * the sequence of lines written, the clock's text is a parameter, and the
 * arguments arrive already turned into text. Blocking on the condition
 * variable is read as a precondition: a pop happens once the queue has a
 * message or is shut down.
 */
module CppLogger {
  import opened Common

  /** `LogLevel`. */
  datatype LogLevel = Info | Debug | Warn | Error

  /** The prefix `log` puts in front of each level's messages. */
  function LevelPrefix(level: LogLevel): (s: string)
    ensures |s| == 7 && s[0] == '[' && s[6] == ']'
  {
    match level
    case Info => "[*INFO]"
    case Debug => "[DEBUG]"
    case Warn => "[*WARN]"
    case Error => "[ERROR]"
  }

  /** Each level has its own prefix. */
  lemma LevelPrefixInjective(a: LogLevel, b: LogLevel)
    requires LevelPrefix(a) == LevelPrefix(b)
    ensures a == b
  {
  }

  /** A placeholder `{}` starts at `q`. */
  predicate PlaceholderAt(s: string, q: int)
  {
    0 <= q && q + 1 < |s| && s[q] == '{' && s[q + 1] == '}'
  }

  /** The first placeholder `{}` in `s`, if any. */
  function Find(s: string): (r: Option<nat>)
    ensures r.Some? ==> r.value + 2 <= |s| && PlaceholderAt(s, r.value) && forall q | 0 <= q < r.value :: !PlaceholderAt(s, q)
    ensures r.None? ==> forall q :: !PlaceholderAt(s, q)
    decreases |s|
  {
    if |s| < 2 then None
    else if s[0] == '{' && s[1] == '}' then Some(0)
    else
      match Find(s[1..])
      case None =>
        assert forall q | PlaceholderAt(s, q) :: q > 0 && PlaceholderAt(s[1..], q - 1);
        None
      case Some(p) =>
        assert forall q | 0 < q <= p :: PlaceholderAt(s, q) == PlaceholderAt(s[1..], q - 1);
        Some(p + 1)
  }

  /** The arguments written out one after the other. */
  function Concat(args: seq<string>): string
    decreases |args|
  {
    if |args| == 0 then "" else args[0] + Concat(args[1..])
  }

  /** The number of placeholders `formatMessage` finds, scanning left to right. */
  function Placeholders(format: string): nat
    decreases |format|
  {
    match Find(format)
    case None => 0
    case Some(p) => 1 + Placeholders(format[p + 2..])
  }

  /**
   * What `formatMessage` makes of `format` (before the time stamp): each
   * placeholder in turn takes the next argument, a placeholder with no
   * argument left stays `{}`, and arguments left over follow the text.
   */
  function Fill(format: string, args: seq<string>): string
    decreases |format|
  {
    match Find(format)
    case None => format + Concat(args)
    case Some(p) =>
      format[..p] + (if |args| > 0 then args[0] else "{}") + Fill(format[p + 2..], if |args| > 0 then args[1..] else [])
  }

  /** A format with no placeholder is the format followed by every argument. */
  lemma NoPlaceholders(format: string, args: seq<string>)
    requires Find(format).None?
    ensures Fill(format, args) == format + Concat(args)
  {
  }

  /** With no arguments the format comes back as it is: placeholders without an argument are kept literally. */
  lemma {:induction false} SurplusPlaceholdersKept(format: string)
    ensures Fill(format, []) == format
    decreases |format|
  {
    match Find(format)
    case None =>
    case Some(p) =>
      SurplusPlaceholdersKept(format[p + 2..]);
      assert format == format[..p] + "{}" + format[p + 2..] by {
        assert format[p..p + 2] == "{}";
      }
  }

  /** Concatenation splits over a split of the arguments. */
  lemma {:induction false} ConcatAppend(a: seq<string>, b: seq<string>)
    ensures Concat(a + b) == Concat(a) + Concat(b)
    decreases |a|
  {
    if |a| > 0 {
      assert (a + b)[1..] == a[1..] + b;
      ConcatAppend(a[1..], b);
    } else {
      assert a + b == b;
    }
  }

  /**
   * Arguments beyond the placeholders are appended after the filled text,
   * in order: the result is the format filled with as many arguments as it
   * has placeholders, followed by the rest.
   */
  lemma {:induction false} SurplusArgumentsAppended(format: string, args: seq<string>)
    requires Placeholders(format) <= |args|
    ensures Fill(format, args) == Fill(format, args[..Placeholders(format)]) + Concat(args[Placeholders(format)..])
    decreases |format|
  {
    match Find(format)
    case None =>
      assert args[..0] == [] && args[0..] == args;
      assert Concat([]) == "";
    case Some(p) =>
      var rest := format[p + 2..];
      var k := Placeholders(format);
      assert k == 1 + Placeholders(rest);
      var used := args[..k];
      assert used[0] == args[0] && used[1..] == args[1..][..k - 1];
      assert Fill(format, args) == format[..p] + args[0] + Fill(rest, args[1..]);
      assert Fill(format, used) == format[..p] + args[0] + Fill(rest, args[1..][..k - 1]);
      hide Fill, Find, Placeholders, Concat;
      SurplusArgumentsAppended(rest, args[1..]);
      assert args[k..] == args[1..][k - 1..];
      ConcatAssociative(format[..p], args[0], Fill(rest, args[1..][..k - 1]), Concat(args[k..]));
  }

  /** One step of the scan in `formatMessage`: the text up to the next placeholder, then what replaces it. */
  lemma FillAt(format: string, pos: nat, args: seq<string>, argIndex: nat)
    requires pos <= |format| && argIndex <= |args| && Find(format[pos..]).Some?
    ensures pos + Find(format[pos..]).value + 2 <= |format|
    ensures Fill(format[pos..], args[argIndex..]) ==
              format[pos..pos + Find(format[pos..]).value] +
              (if argIndex < |args| then args[argIndex] else "{}") +
              Fill(format[pos + Find(format[pos..]).value + 2..], args[(if argIndex < |args| then argIndex + 1 else argIndex)..])
  {
    var q := Find(format[pos..]).value;
    assert format[pos..][..q] == format[pos..pos + q];
    assert format[pos..][q + 2..] == format[pos + q + 2..];
    if argIndex < |args| {
      assert args[argIndex..][1..] == args[argIndex + 1..];
    }
  }

  /** The invariant of the placeholder loop: the text so far, then the rest of the format filled with the arguments left, is the whole. */
  predicate Scanned(format: string, args: seq<string>, out: string, pos: nat, argIndex: nat, total: string)
  {
    pos <= |format| && argIndex <= |args| && out + Fill(format[pos..], args[argIndex..]) == total
  }

  /** The invariant of the trailing loop: the text so far, then the arguments left, is the whole. */
  predicate Appended(args: seq<string>, out: string, i: nat, total: string)
  {
    i <= |args| && out + Concat(args[i..]) == total
  }

  /** The loop of `formatMessage` keeps its invariant across one placeholder. */
  lemma ScanStep(format: string, args: seq<string>, out: string, pos: nat, argIndex: nat, p: nat, piece: string, next: nat, out': string, pos': nat, total: string)
    requires Scanned(format, args, out, pos, argIndex, total)
    requires Find(format[pos..]).Some? && p == pos + Find(format[pos..]).value && pos' == p + 2
    requires piece == (if argIndex < |args| then args[argIndex] else "{}")
    requires next == (if argIndex < |args| then argIndex + 1 else argIndex)
    requires p <= |format| && out' == out + format[pos..p] + piece
    ensures Scanned(format, args, out', pos', next, total)
  {
    hide Fill, Find;
    FillAt(format, pos, args, argIndex);
    ConcatAssociative(out, format[pos..p], piece, Fill(format[p + 2..], args[next..]));
  }

  lemma ConcatAssociative(a: string, b: string, c: string, d: string)
    ensures (a + b + c) + d == a + (b + c + d)
  {
  }

  /** Once no placeholder is left, the rest of the format and then the unused arguments remain. */
  lemma ScanDone(format: string, args: seq<string>, out: string, pos: nat, argIndex: nat, total: string)
    requires Scanned(format, args, out, pos, argIndex, total)
    requires Find(format[pos..]).None?
    ensures Appended(args, out + format[pos..], argIndex, total)
  {
    hide Find;
    NoPlaceholders(format[pos..], args[argIndex..]);
  }

  /** The trailing loop of `formatMessage` keeps its invariant across one argument. */
  lemma TailStep(args: seq<string>, out: string, i: nat, total: string)
    requires Appended(args, out, i, total) && i < |args|
    ensures Appended(args, out + args[i], i + 1, total)
  {
    assert args[i..][1..] == args[i + 1..];
  }

  /** With every argument used, the text is complete. */
  lemma TailDone(args: seq<string>, out: string, total: string)
    requires Appended(args, out, |args|, total)
    ensures out == total
  {
    assert args[|args|..] == [];
  }

  /** `formatMessage`: the time stamp in brackets, then the filled format. */
  method FormatMessage(format: string, args: seq<string>, time: string) returns (s: string)
    ensures s == "[" + time + "] " + Fill(format, args)
  {
    var out := "";
    var argIndex := 0;
    var pos := 0;
    var placeholder := Find(format[pos..]);
    ghost var total := Fill(format, args);
    assert format[pos..] == format && args[argIndex..] == args;
    assert Scanned(format, args, out, pos, argIndex, total);
    hide *;
    while placeholder.Some?
      invariant 0 <= pos <= |format| && 0 <= argIndex <= |args|
      invariant placeholder == Find(format[pos..])
      invariant Scanned(format, args, out, pos, argIndex, total)
      decreases |format| - pos
    {
      var p := pos + placeholder.value;
      var piece := "{}";
      var next := argIndex;
      if argIndex < |args| {
        piece := args[argIndex];
        next := argIndex + 1;
      }
      var out' := out + format[pos..p] + piece;
      var pos' := p + 2;
      ScanStep(format, args, out, pos, argIndex, p, piece, next, out', pos', total);
      out, argIndex, pos := out', next, pos';
      placeholder := Find(format[pos..]);
    }
    ScanDone(format, args, out, pos, argIndex, total);
    out := out + format[pos..];
    while argIndex < |args|
      invariant 0 <= argIndex <= |args|
      invariant Appended(args, out, argIndex, total)
    {
      TailStep(args, out, argIndex, total);
      out := out + args[argIndex];
      argIndex := argIndex + 1;
    }
    TailDone(args, out, total);
    s := "[" + time + "] " + out;
  }

  /** `LogQueue`: a first-in first-out queue of lines that can be shut down. */
  class LogQueue {
    var queue: seq<string>
    var isShutdown: bool

    constructor()
      ensures queue == [] && !isShutdown
    {
      queue := [];
      isShutdown := false;
    }

    /** `push`: the message goes to the back. */
    method Push(msg: string)
      modifies this`queue
      ensures queue == old(queue) + [msg]
    {
      queue := queue + [msg];
    }

    /** `pop`, once woken: false only when shut down with nothing left; otherwise the front message, taken off. */
    method Pop() returns (ok: bool, msg: string)
      requires queue != [] || isShutdown
      modifies this`queue
      ensures ok <==> old(queue) != []
      ensures ok ==> msg == old(queue)[0] && queue == old(queue)[1..]
      ensures !ok ==> queue == old(queue)
    {
      if isShutdown && queue == [] {
        return false, "";
      }
      msg := queue[0];
      queue := queue[1..];
      ok := true;
    }

    /** `shutdown`. */
    method Shutdown()
      modifies this`isShutdown
      ensures isShutdown
    {
      isShutdown := true;
    }
  }

  class Logger {
    /** `log_queue_`. */
    const logQueue: LogQueue
    /** `exit_flag_`. */
    var exitFlag: bool
    /** The lines written to the log file. */
    var file: seq<string>

    constructor()
      ensures fresh(logQueue) && logQueue.queue == [] && !logQueue.isShutdown
      ensures !exitFlag && file == []
    {
      logQueue := new LogQueue();
      exitFlag := false;
      file := [];
    }

    /** `log`: the level's prefix, the time stamp and the filled format, queued as one line. */
    method Log(level: LogLevel, format: string, args: seq<string>, time: string)
      modifies logQueue`queue
      ensures logQueue.queue == old(logQueue.queue) + [LevelPrefix(level) + "[" + time + "] " + Fill(format, args)]
    {
      var msg := FormatMessage(format, args, time);
      assert LevelPrefix(level) + msg == LevelPrefix(level) + "[" + time + "] " + Fill(format, args);
      logQueue.Push(LevelPrefix(level) + msg);
    }

    /**
     * The worker thread until it blocks or stops: while the exit flag is
     * clear it writes the queued lines in the order they were queued.
     */
    method Work()
      modifies logQueue`queue, this`file
      ensures !exitFlag ==> file == old(file) + old(logQueue.queue) && logQueue.queue == []
      ensures exitFlag ==> file == old(file) && logQueue.queue == old(logQueue.queue)
    {
      while !exitFlag && logQueue.queue != []
        invariant file + logQueue.queue == old(file) + old(logQueue.queue)
        invariant exitFlag ==> file == old(file) && logQueue.queue == old(logQueue.queue)
        decreases |logQueue.queue|
      {
        var ok, msg := logQueue.Pop();
        file := file + [msg];
      }
      if !exitFlag {
        assert file + [] == file;
      }
    }

    /**
     * The destructor: the exit flag is set before the queue is shut down,
     * so the worker stops at its next check and lines still queued are
     * never written.
     */
    method Destroy()
      modifies this`exitFlag, logQueue`isShutdown, logQueue`queue, this`file
      ensures exitFlag && logQueue.isShutdown
      ensures file == old(file) && logQueue.queue == old(logQueue.queue)
    {
      exitFlag := true;
      logQueue.Shutdown();
      Work();
    }
  }
}
