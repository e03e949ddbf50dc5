/**
 The newline-delimited transport over a child process (apps/vscode/src/extension.ts:332-376): output
 arrives in chunks cut anywhere, and is handed on line by line.
 */
module Stdio {
  import opened Text
  import opened Seqs

  /** A chunk that arrives after complete lines and an unfinished one only continues the latter. */
  lemma ChunkContinues(received: string, complete: seq<string>, buffer: string, chunk: string)
    requires complete + [buffer] == Lines(received)
    ensures complete + Lines(buffer + chunk) == Lines(received + chunk)
  {
    LinesAreFree(received);
    assert Lines(received)[|complete|] == buffer && Lines(received)[..|complete|] == complete;
    LinesOfFree(buffer);
    LinesOfConcat(received, chunk);
    LinesOfConcat(buffer, chunk);
  }

  lemma FirstLine(buffer: string, nl: nat)
    requires nl < |buffer| && buffer[nl] == '\n' && Free(buffer[..nl], '\n')
    ensures Lines(buffer) == [buffer[..nl]] + Lines(buffer[nl + 1..])
  {
    var line, rest := buffer[..nl], buffer[nl + 1..];
    LinesOfFree(line);
    LinesOfTwo(line, rest);
    CutAtNewline(buffer, nl, line, rest);
  }

  lemma CutAtNewline(buffer: string, nl: nat, line: string, rest: string)
    requires nl < |buffer| && buffer[nl] == '\n' && line == buffer[..nl] && rest == buffer[nl + 1..]
    ensures buffer == line + NL + rest
  {
  }

  class StdioTransport {
    var buffer: string
    var delivered: seq<string>  // the lines the line handler was called with
    var written: string         // what was written to the child's input
    var writable: bool          // whether the child's input still takes writes
    ghost var received: string  // all chunks so far, end to end

    ghost predicate Valid()
      reads this
    {
      delivered + [buffer] == Lines(received)
    }

    constructor ()
      ensures Valid() && received == "" && delivered == [] && buffer == "" && written == "" && writable
    {
      buffer, delivered, written, writable, received := "", [], "", true, "";
    }

    method OnData(chunk: string)
      requires Valid()
      modifies `buffer, `delivered, `received
      ensures Valid() && received == old(received) + chunk
      ensures old(delivered) <= delivered
    {
      received := received + chunk;
      ChunkContinues(old(received), delivered, buffer, chunk);
      buffer := buffer + chunk;
      var nl := IndexOf(buffer, '\n', 0);
      while nl >= 0
        invariant old(delivered) <= delivered && received == old(received) + chunk
        invariant delivered + Lines(buffer) == Lines(received)
        invariant nl == IndexOf(buffer, '\n', 0)
        decreases |buffer|
      {
        var line := buffer[..nl];
        FirstLine(buffer, nl);
        buffer := buffer[nl + 1..];
        assert delivered + ([line] + Lines(buffer)) == delivered + [line] + Lines(buffer);
        delivered := delivered + [line];
        nl := IndexOf(buffer, '\n', 0);
      }
      LinesOfFree(buffer);
    }

    method Send(message: string)
      modifies `written
      ensures written == old(written) + if writable then message + NL else ""
    {
      if writable {
        written := written + (message + NL);
      }
    }
  }

  function Concat(chunks: seq<string>): string {
    if chunks == [] then "" else chunks[0] + Concat(chunks[1..])
  }

  /** Feeds all chunks of an output stream through the transport. */
  method Receive(chunks: seq<string>) returns (delivered: seq<string>, buffer: string)
    ensures delivered + [buffer] == Lines(Concat(chunks))
  {
    var t := new StdioTransport();
    var i := 0;
    assert Concat(chunks[0..]) == Concat(chunks) by {
      assert chunks[0..] == chunks;
    }
    while i < |chunks|
      invariant 0 <= i <= |chunks|
      invariant fresh(t) && t.Valid()
      invariant t.received + Concat(chunks[i..]) == Concat(chunks)
    {
      assert chunks[i..][1..] == chunks[i + 1..];
      t.OnData(chunks[i]);
      i := i + 1;
    }
    assert t.received == Concat(chunks);
    return t.delivered, t.buffer;
  }

  lemma {:induction false} TerminatedPush(messages: seq<string>, message: string)
    ensures Terminated(messages + [message]) == Terminated(messages) + (message + NL)
  {
    if messages == [] {
      assert messages + [message] == [message] && [message][1..] == [];
      assert message + NL + "" == message + NL;
    } else {
      assert (messages + [message])[1..] == messages[1..] + [message];
      TerminatedPush(messages[1..], message);
      assert messages[0] + NL + (Terminated(messages[1..]) + (message + NL))
          == messages[0] + NL + Terminated(messages[1..]) + (message + NL);
    }
  }

  /** Sends messages one after the other through a fresh transport. */
  method SendAll(messages: seq<string>) returns (written: string)
    ensures written == Terminated(messages)
  {
    var t := new StdioTransport();
    var i := 0;
    while i < |messages|
      invariant 0 <= i <= |messages|
      invariant fresh(t) && t.writable && t.written == Terminated(messages[..i])
    {
      assert messages[..i + 1] == messages[..i] + [messages[i]];
      TerminatedPush(messages[..i], messages[i]);
      t.Send(messages[i]);
      i := i + 1;
    }
    assert messages[..i] == messages;
    written := t.written;
  }

  /**
   However what `SendAll` writes is cut into chunks, and however few of them have arrived, the lines handed on
   are the first messages, whole and in order, and the buffer holds the beginning of the next one; once all have
   arrived every message was handed on exactly once.
   */
  lemma MessagesArriveWhole(
    messages: seq<string>, chunks: seq<string>, rest: string, delivered: seq<string>, buffer: string)
    requires AllFree(messages, '\n')
    requires Concat(chunks) + rest == Terminated(messages)
    requires delivered + [buffer] == Lines(Concat(chunks))
    ensures delivered <= messages
    ensures buffer != "" ==> |delivered| < |messages| && buffer <= messages[|delivered|]
    ensures rest == "" ==> delivered == messages && buffer == ""
  {
    LinesOfTerminated(messages);
    LinesOfConcat(Concat(chunks), rest);
    var ls := Lines(Terminated(messages));
    var n := |delivered|;
    assert Lines(Concat(chunks))[..n] == delivered && Lines(Concat(chunks))[n] == buffer;
    assert ls == delivered + [buffer + Lines(rest)[0]] + Lines(rest)[1..];
    assert ls[..n] == delivered;
    assert ls[n] == buffer + Lines(rest)[0];
    if n == |messages| {
      assert ls[n] == "";
    }
    if rest == "" {
      assert Concat(chunks) + rest == Concat(chunks);
      assert |delivered| == |messages|;
    }
  }
}
