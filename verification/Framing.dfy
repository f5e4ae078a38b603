/** JSONL framing of the app-server's byte stream, with its input budgets.
    Reads are untimed: `chunks` is what successive reads of the pipe return, and
    the stream closes when they run out. */
module Framing {
  import opened Common
  import opened Protocol

  type Byte = b: int | 0 <= b < 256

  const NEWLINE: Byte := 10

  datatype ReadResult = Frame(line: seq<Byte>) | LimitExceeded | Closed

  /** `buffer.find(b"\n")`, with the length standing for "not found". */
  function NewlineAt(s: seq<Byte>): (k: nat)
    ensures k <= |s|
    ensures k < |s| ==> s[k] == NEWLINE
    ensures forall i :: 0 <= i < k ==> s[i] != NEWLINE
  {
    if s == [] || s[0] == NEWLINE then 0 else 1 + NewlineAt(s[1..])
  }

  predicate WithinBudget(turn: nat, conversation: nat, consumed: nat) {
    turn + consumed <= MAX_TURN_INPUT_BYTES && conversation + consumed <= MAX_CONVERSATION_INPUT_BYTES
  }

  // ------------------------------------------------- what the stream alone says

  function Flatten(chunks: seq<seq<Byte>>): seq<Byte> {
    if chunks == [] then [] else chunks[0] + Flatten(chunks[1..])
  }

  // ------------------------------------------------------ the reader, as a value

  datatype Reader = Reader(buffer: seq<Byte>, chunks: seq<seq<Byte>>, turn: nat, conversation: nat)

  function Unread(r: Reader): seq<Byte> { r.buffer + Flatten(r.chunks) }

  /** The body of the read loop, one iteration per read of the pipe.  An empty
      read means the other side closed it. */
  function ReadOnce(r: Reader): (ReadResult, Reader)
    decreases |r.chunks|
  {
    var k := NewlineAt(r.buffer);
    if k < |r.buffer| then
      if k > MAX_JSONL_FRAME_BYTES || !WithinBudget(r.turn, r.conversation, k + 1)
      then (LimitExceeded, r.(buffer := []))
      else (Frame(r.buffer[..k]), Reader(r.buffer[k + 1..], r.chunks, r.turn + k + 1, r.conversation + k + 1))
    else if |r.buffer| > MAX_JSONL_FRAME_BYTES then (LimitExceeded, r.(buffer := []))
    else if r.chunks == [] || r.chunks[0] == [] then (Closed, r)
    else ReadOnce(r.(buffer := r.buffer + r.chunks[0], chunks := r.chunks[1..]))
  }

  ghost predicate NoEmptyRead(chunks: seq<seq<Byte>>) {
    forall i :: 0 <= i < |chunks| ==> chunks[i] != []
  }

  lemma NewlineInPrefix(s: seq<Byte>, t: seq<Byte>)
    requires NewlineAt(s) < |s|
    ensures NewlineAt(s + t) == NewlineAt(s)
  {
    var k, m := NewlineAt(s), NewlineAt(s + t);
    assert (s + t)[k] == NEWLINE;
    if m < k { assert (s + t)[m] == s[m]; }
  }

  lemma NewlineNotInPrefix(s: seq<Byte>, t: seq<Byte>)
    requires NewlineAt(s) == |s|
    ensures NewlineAt(s + t) >= |s|
  {
    assert forall i :: 0 <= i < |s| ==> (s + t)[i] == s[i];
  }

  /** A read of `r` that gives `out` and leaves `next` is what the unread stream and the
      charges say: its first line, if that is no longer than a frame may be and ending it
      stays within both budgets; the end, if no line is complete and what is there is not
      too long; and otherwise a limit. */
  ghost predicate Obeys(r: Reader, out: ReadResult, next: Reader) {
    var stream := Unread(r);
    var k := NewlineAt(stream);
    var affordable := && r.turn + k + 1 <= MAX_TURN_INPUT_BYTES
                      && r.conversation + k + 1 <= MAX_CONVERSATION_INPUT_BYTES;
    match out
    case Frame(line) =>
      && k < |stream| && k <= MAX_JSONL_FRAME_BYTES && affordable
      && line == stream[..k] && Unread(next) == stream[k + 1..]
      && next.turn == r.turn + k + 1 && next.conversation == r.conversation + k + 1
      && NoEmptyRead(next.chunks)
    case LimitExceeded => k > MAX_JSONL_FRAME_BYTES || (k < |stream| && !affordable)
    case Closed => k == |stream| && k <= MAX_JSONL_FRAME_BYTES
  }

  lemma BufferedObeys(r: Reader)
    requires NoEmptyRead(r.chunks) && NewlineAt(r.buffer) < |r.buffer|
    ensures Obeys(r, ReadOnce(r).0, ReadOnce(r).1)
  {
    hide NewlineAt, Flatten;
    var k, rest := NewlineAt(r.buffer), Flatten(r.chunks);
    NewlineInPrefix(r.buffer, rest);
    assert (r.buffer + rest)[..k] == r.buffer[..k];
    assert (r.buffer + rest)[k + 1..] == r.buffer[k + 1..] + rest;
  }

  lemma MoreIsSame(r: Reader)
    requires r.chunks != []
    ensures Unread(r.(buffer := r.buffer + r.chunks[0], chunks := r.chunks[1..])) == Unread(r)
  {
    Regroup(r.buffer, r.chunks[0], Flatten(r.chunks[1..]));
  }

  /** However the stream is split into reads, a read returns what the stream says
      and leaves the rest of the stream. */
  lemma {:induction false} ReadFollowsStream(r: Reader)
    requires NoEmptyRead(r.chunks)
    ensures Obeys(r, ReadOnce(r).0, ReadOnce(r).1)
    decreases |r.chunks|
  {
    hide NewlineAt;
    if NewlineAt(r.buffer) < |r.buffer| {
      hide ReadOnce, Obeys;
      BufferedObeys(r);
    } else if |r.buffer| > MAX_JSONL_FRAME_BYTES {
      NewlineNotInPrefix(r.buffer, Flatten(r.chunks));
    } else if r.chunks == [] {
      assert Unread(r) == r.buffer;
    } else {
      var next := r.(buffer := r.buffer + r.chunks[0], chunks := r.chunks[1..]);
      assert forall i :: 0 <= i < |next.chunks| ==> next.chunks[i] == r.chunks[i + 1];
      ReadFollowsStream(next);
      MoreIsSame(r);
      hide Unread, NoEmptyRead;
      assert ReadOnce(r) == ReadOnce(next);
    }
  }

  // --------------------------------------------------------------- whole runs

  datatype Op = ReadLine | BeginTurn

  /** The results of a script of reads and turn starts, up to the first failure. */
  function Results(r: Reader, ops: seq<Op>): seq<ReadResult>
    decreases |ops|
  {
    if ops == [] then []
    else if ops[0].BeginTurn? then Results(r.(turn := 0), ops[1..])
    else
      var (out, next) := ReadOnce(r);
      [out] + if out.Frame? then Results(next, ops[1..]) else []
  }

  /** The frames produced and the terminal failure do not depend on how the byte
      stream was split into reads. */
  lemma {:induction false} SplitDoesNotMatter(a: Reader, b: Reader, ops: seq<Op>)
    requires NoEmptyRead(a.chunks) && NoEmptyRead(b.chunks)
    requires Unread(a) == Unread(b) && a.turn == b.turn && a.conversation == b.conversation
    ensures Results(a, ops) == Results(b, ops)
    decreases |ops|
  {
    hide ReadOnce;
    if ops != [] {
      if ops[0].BeginTurn? {
        assert Unread(a.(turn := 0)) == Unread(b.(turn := 0));
        SplitDoesNotMatter(a.(turn := 0), b.(turn := 0), ops[1..]);
      } else {
        ReadFollowsStream(a);
        ReadFollowsStream(b);
        hide Unread;
        if ReadOnce(a).0.Frame? {
          SplitDoesNotMatter(ReadOnce(a).1, ReadOnce(b).1, ops[1..]);
        }
      }
    }
  }

  // ------------------------------------------------------------ imperative form

  class FrameReader {
    var buffer: seq<Byte>
    var chunks: seq<seq<Byte>>
    var turnBytes: nat
    var conversationBytes: nat
    ghost var received: nat
    ghost var failed: bool

    /** Bytes received are either charged or still buffered, and the charges stay
        under their caps. */
    ghost predicate Valid()
      reads this
    {
      && received == conversationBytes + |buffer|
      && turnBytes <= conversationBytes <= MAX_CONVERSATION_INPUT_BYTES
      && turnBytes <= MAX_TURN_INPUT_BYTES
    }

    ghost function View(): Reader
      reads this
    {
      Reader(buffer, chunks, turnBytes, conversationBytes)
    }

    constructor (chunks: seq<seq<Byte>>)
      ensures Valid() && !failed && View() == Reader([], chunks, 0, 0) && received == 0
    {
      this.buffer := [];
      this.chunks := chunks;
      this.turnBytes := 0;
      this.conversationBytes := 0;
      this.received := 0;
      this.failed := false;
    }

    method StartTurn()
      requires Valid() && !failed
      modifies this
      ensures Valid() && !failed && View() == old(View()).(turn := 0) && received == old(received)
    {
      turnBytes := 0;
    }

    /** Charge consumed input, or raise and drop everything buffered. */
    method ChargeInput(consumed: nat) returns (ok: bool)
      requires consumed <= |buffer|
      modifies this
      ensures ok == WithinBudget(old(turnBytes), old(conversationBytes), consumed)
      ensures ok ==> turnBytes == old(turnBytes) + consumed && conversationBytes == old(conversationBytes) + consumed
                     && buffer == old(buffer)
      ensures !ok ==> turnBytes == old(turnBytes) && conversationBytes == old(conversationBytes) && buffer == []
      ensures chunks == old(chunks) && received == old(received) && failed == old(failed)
    {
      ok := turnBytes + consumed <= MAX_TURN_INPUT_BYTES
            && conversationBytes + consumed <= MAX_CONVERSATION_INPUT_BYTES;
      if ok {
        turnBytes := turnBytes + consumed;
        conversationBytes := conversationBytes + consumed;
      } else {
        buffer := [];
      }
    }

    /** `_read_line`: reads the pipe until a frame, a limit or the end. */
    method NextLine() returns (r: ReadResult)
      requires Valid() && !failed
      modifies this
      ensures (r, View()) == ReadOnce(old(View()))
      ensures failed == !r.Frame?
      ensures !r.LimitExceeded? ==> Valid()
      ensures received == old(received) + (|Flatten(old(chunks))| - |Flatten(chunks)|)
    {
      ghost var start := View();
      while true
        invariant Valid() && !failed
        invariant ReadOnce(View()) == ReadOnce(start)
        invariant received == old(received) + (|Flatten(old(chunks))| - |Flatten(chunks)|)
        decreases |chunks|
      {
        var newline := NewlineAt(buffer);
        if newline < |buffer| {
          if newline > MAX_JSONL_FRAME_BYTES {
            buffer, failed := [], true;
            return LimitExceeded;
          }
          var charged := ChargeInput(newline + 1);
          if !charged {
            failed := true;
            return LimitExceeded;
          }
          var line := buffer[..newline];
          buffer := buffer[newline + 1..];
          return Frame(line);
        }
        if |buffer| > MAX_JSONL_FRAME_BYTES {
          buffer, failed := [], true;
          return LimitExceeded;
        }
        if chunks == [] || chunks[0] == [] {
          failed := true;
          return Closed;
        }
        received := received + |chunks[0]|;
        buffer, chunks := buffer + chunks[0], chunks[1..];
      }
    }
  }
}
