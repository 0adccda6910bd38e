/**
 The write path of `TcpConnection`: a message is written to the socket directly when
 nothing is waiting, the rest goes to the write buffer and write interest is switched on;
 write events drain the buffer; the half-close waits until it is empty. What the socket
 does with each write is a parameter of the call.
 */
module TcpConnection {
  import opened ByteBuffer
  import opened Poller

  datatype State = Connecting | Connected | Disconnecting | Disconnected

  /** The result of `write`: so many bytes taken, or an error; EPIPE and ECONNRESET are fatal. */
  datatype WriteResult = Wrote(n: nat) | Failed(fatal: bool)

  class Connection {
    const channel: EventChannel
    const writeBuffer: Buffer
    var state: State
    var halfClosed: bool             // ShutdownWrite has been called
    var shutdownQueued: nat          // ShutdownInLoop tasks in the loop's queue

    var sent: seq<Byte>              // the socket: bytes it has taken
    ghost var accepted: seq<Byte>    // bytes of the messages taken over from the caller

    /** The objects this connection works on. */
    ghost predicate Wired()
      reads this, channel, channel.poller, channel.poller.members, writeBuffer
    {
      && channel in channel.poller.members && channel.poller.Valid() && writeBuffer.Valid()
    }

    /**
     Nothing is lost, repeated or reordered between the accepted messages, the socket and
     the buffer; and write interest is on exactly while something waits and the connection
     is not closed.
     */
    ghost predicate Valid()
      reads this, channel, channel.poller, channel.poller.members, writeBuffer
    {
      && Wired()
      && accepted == sent + writeBuffer.Contents()
      && (channel.IsWriting() <==> state != Disconnected && writeBuffer.Contents() != [])
    }

    constructor (channel: EventChannel, writeBuffer: Buffer)
      requires channel in channel.poller.members && channel.poller.Valid() && channel.IsNoneEvent()
      requires writeBuffer.Valid() && writeBuffer.Contents() == []
      ensures Valid() && state == Connecting && !halfClosed && sent == [] && accepted == []
      ensures this.channel == channel && this.writeBuffer == writeBuffer && shutdownQueued == 0
    {
      this.channel, this.writeBuffer := channel, writeBuffer;
      state, halfClosed, shutdownQueued, sent, accepted := Connecting, false, 0, [], [];
      new;
      MaskLaws(NoneEvent);
    }

    method ConnectEstablished()
      requires Valid() && state == Connecting
      modifies this`state, channel, channel.poller`channels, channel.poller`kernel, channel.poller`refused
      ensures Valid() && state == Connected && channel.IsReading()
    {
      state := Connected;
      channel.EnableReading();
    }

    /** Forget the connection: no events any more, whatever still waits. */
    method CloseHandler()
      requires Wired() && accepted == sent + writeBuffer.Contents()
      modifies this`state, channel, channel.poller`channels, channel.poller`kernel, channel.poller`refused
      ensures Valid() && state == Disconnected && channel.IsNoneEvent()
    {
      state := Disconnected;
      channel.DisableAll();
    }

    /**
     `SendInLoop`: unless the connection is closed or the write fails fatally, the whole
     message is accepted, behind everything accepted before.
     */
    method SendInLoop(msg: seq<Byte>, result: WriteResult)
      requires Valid() && writeBuffer.writeIndex + |msg| < Limit
      requires result.Wrote? ==> result.n <= |msg|
      modifies this`state, this`sent, this`accepted, writeBuffer,
               channel, channel.poller`channels, channel.poller`kernel, channel.poller`refused
      ensures Valid()
      ensures var direct := old(state) != Disconnected && old(writeBuffer.Contents()) == [];
        var fatal := direct && result == Failed(true);
        && accepted == old(accepted) + (if old(state) == Disconnected || fatal then [] else msg)
        && sent == old(sent) + (if direct && result.Wrote? then msg[..result.n] else [])
        && state == (if fatal then Disconnected else old(state))
      ensures writeBuffer.writeIndex <= old(writeBuffer.writeIndex) + |msg|
    {
      if state == Disconnected { return; }
      var nwrite, fault := 0, false;
      if !channel.IsWriting() && writeBuffer.ReadableBytes() == 0 {
        match result
        case Wrote(n) => nwrite := n;
        case Failed(fatal) => fault := fatal;
      }
      if fault {
        CloseHandler();
      } else {
        sent := sent + msg[..nwrite];
        accepted := accepted + msg;
        Enqueue(msg, nwrite);
      }
    }

    /** Buffer what the socket did not take, and ask for write events. */
    method Enqueue(msg: seq<Byte>, nwrite: nat)
      requires Wired() && state != Disconnected && nwrite <= |msg| && writeBuffer.writeIndex + |msg| < Limit
      requires nwrite > 0 ==> writeBuffer.Contents() == []
      requires accepted == sent + writeBuffer.Contents() + msg[nwrite..]
      requires channel.IsWriting() <==> writeBuffer.Contents() != []
      modifies writeBuffer, channel, channel.poller`channels, channel.poller`kernel, channel.poller`refused
      ensures Valid() && writeBuffer.writeIndex <= old(writeBuffer.writeIndex) + |msg|
    {
      if nwrite < |msg| {
        ghost var before := writeBuffer.Contents();
        writeBuffer.Append(msg[nwrite..]);
        assert accepted == sent + (before + msg[nwrite..]);
        if !channel.IsWriting() { channel.EnableWriting(); }
      }
    }

    /**
     `WriteHandler`: the socket takes a prefix of the buffer; once the buffer is empty,
     write interest goes off and a pending half-close is carried out.
     */
    method WriteHandler(result: WriteResult)
      requires Valid()
      requires result.Wrote? ==> result.n <= writeBuffer.ReadableBytes()
      modifies this`sent, this`halfClosed, writeBuffer,
               channel, channel.poller`channels, channel.poller`kernel, channel.poller`refused
      ensures Valid() && accepted == old(accepted)
      ensures sent == old(sent) +
        (if old(channel.IsWriting()) && result.Wrote? then old(writeBuffer.Contents())[..result.n] else [])
      ensures halfClosed ==
        (old(halfClosed) || (state == Disconnecting && old(channel.IsWriting()) && !channel.IsWriting()))
      ensures halfClosed && !old(halfClosed) ==> sent == accepted
      ensures writeBuffer.writeIndex <= old(writeBuffer.writeIndex)
    {
      if channel.IsWriting() && result.Wrote? && result.n > 0 {
        var before := writeBuffer.Contents();
        sent := sent + before[..result.n];
        writeBuffer.ClearReadIndex(result.n);
        assert before == before[..result.n] + writeBuffer.Contents();
        if writeBuffer.IsEmpty() {
          channel.DisableWriting();
          if state == Disconnecting { ShutdownInLoop(); }
        }
      }
    }

    /**
     `Shutdown`: the first call on a connected connection queues the half-close, unless the
     weak compare-exchange fails spuriously; then nothing happens.
     */
    method Shutdown(spurious: bool)
      requires Valid()
      modifies this`state, this`shutdownQueued
      ensures Valid() && state == (if old(state) == Connected && !spurious then Disconnecting else old(state))
      ensures shutdownQueued == old(shutdownQueued) + (if old(state) == Connected && !spurious then 1 else 0)
    {
      if state == Connected && !spurious {
        state := Disconnecting;
        shutdownQueued := shutdownQueued + 1;
      }
    }

    /** The loop runs a queued half-close. */
    method RunQueuedShutdown()
      requires Valid() && shutdownQueued > 0
      modifies this`halfClosed, this`shutdownQueued
      ensures Valid() && shutdownQueued == old(shutdownQueued) - 1
      ensures halfClosed == (old(halfClosed) || state == Disconnected || sent == accepted)
    {
      shutdownQueued := shutdownQueued - 1;
      ShutdownInLoop();
    }

    /** `ShutdownInLoop`: the half-close is issued exactly when nothing waits, or the connection is closed already. */
    method ShutdownInLoop()
      requires Valid()
      modifies this`halfClosed
      ensures Valid() && halfClosed == (old(halfClosed) || state == Disconnected || sent == accepted)
    {
      if !channel.IsWriting() { halfClosed := true; }
      assert writeBuffer.Contents() == [] <==> sent == accepted;
    }

    /** `StartReadInLoop` and `StopReadInLoop` leave the write path alone. */
    method SetReading(on: bool)
      requires Valid()
      modifies channel, channel.poller`channels, channel.poller`kernel, channel.poller`refused
      ensures Valid() && channel.IsReading() == on && channel.IsWriting() == old(channel.IsWriting())
    {
      if on && !channel.IsReading() { channel.EnableReading(); }
      if !on && channel.IsReading() { channel.DisableReading(); }
    }

    /** The connection as a plain ledger. */
    ghost function AsLedger(): Ledger
      reads this, writeBuffer
      requires writeBuffer.Valid()
    {
      Ledger(state, sent, writeBuffer.Contents(), halfClosed, shutdownQueued)
    }

    lemma Known()
      requires Valid()
      ensures writeBuffer.Valid()
      ensures AsLedger() == Ledger(state, sent, writeBuffer.Contents(), halfClosed, shutdownQueued)
      ensures accepted == sent + writeBuffer.Contents()
      ensures channel.IsWriting() <==> state != Disconnected && writeBuffer.Contents() != []
    {}

    method HandleSend(msg: seq<Byte>, result: WriteResult)
      requires Valid() && state != Connecting && writeBuffer.writeIndex + |msg| < Limit
      modifies this, writeBuffer, channel, channel.poller`channels, channel.poller`kernel, channel.poller`refused
      ensures Valid() && state != Connecting && AsLedger() == Plain(old(AsLedger()), Send(msg, result))
      ensures writeBuffer.writeIndex <= old(writeBuffer.writeIndex) + |msg|
    {
      ghost var before := AsLedger();
      SendInLoop(msg, Clipped(result, |msg|));
      Rest(sent, AsLedger().waiting, Plain(before, Send(msg, result)).waiting);
    }

    method HandleWritable(result: WriteResult)
      requires Valid() && state != Connecting
      modifies this, writeBuffer, channel, channel.poller`channels, channel.poller`kernel, channel.poller`refused
      ensures Valid() && state != Connecting && AsLedger() == Plain(old(AsLedger()), Writable(result))
      ensures writeBuffer.writeIndex <= old(writeBuffer.writeIndex)
    {
      ghost var before := AsLedger();
      WriteHandler(Clipped(result, writeBuffer.ReadableBytes()));
      Rest(sent, AsLedger().waiting, Plain(before, Writable(result)).waiting);
    }

    /** A close in a valid state. */
    method CloseNow()
      requires Valid()
      modifies this`state, channel, channel.poller`channels, channel.poller`kernel, channel.poller`refused
      ensures Valid() && state == Disconnected
    {
      CloseHandler();
    }

    /** One event of a run. */
    method Handle(e: Event)
      requires Valid() && state != Connecting && writeBuffer.writeIndex + Length(e) < Limit
      modifies this, writeBuffer, channel, channel.poller`channels, channel.poller`kernel, channel.poller`refused
      ensures Valid() && state != Connecting && AsLedger() == Plain(old(AsLedger()), e)
      ensures writeBuffer.writeIndex <= old(writeBuffer.writeIndex) + Length(e)
    {
      match e
      case Send(msg, result) => HandleSend(msg, result);
      case Writable(result) => HandleWritable(result);
      case Close => CloseHandler();
      case AskShutdown(spurious) => Shutdown(spurious);
      case RunShutdown => if shutdownQueued > 0 { RunQueuedShutdown(); }
      case Reading(on) => SetReading(on);
    }
  }

  // ---------------------------------------------------------------------------
  // Runs against a plain ledger
  // ---------------------------------------------------------------------------

  datatype Event =
    | Send(msg: seq<Byte>, result: WriteResult)
    | Writable(result: WriteResult)
    | Close
    | AskShutdown(spurious: bool)
    | RunShutdown
    | Reading(on: bool)

  /** Bytes sent, bytes waiting, and how far the connection is closed. */
  datatype Ledger = Ledger(phase: State, sent: seq<Byte>, waiting: seq<Byte>, halfClosed: bool, queued: nat)

  /** `write` takes at most what it is offered. */
  function Clipped(result: WriteResult, len: nat): WriteResult {
    if result.Wrote? && result.n > len then Wrote(len) else result
  }

  function Length(e: Event): nat {
    if e.Send? then |e.msg| else 0
  }

  function TotalLength(events: seq<Event>): nat {
    if events == [] then 0 else TotalLength(events[..|events| - 1]) + Length(events[|events| - 1])
  }

  /** What `write` does with bytes at the front of the line. */
  function Written(l: Ledger, line: seq<Byte>, result: WriteResult): Ledger {
    match Clipped(result, |line|)
    case Wrote(n) => if n <= |line| then l.(sent := l.sent + line[..n], waiting := line[n..]) else l
    case Failed(_) => l.(waiting := line)
  }

  /** Does the connection take over this message? */
  predicate Accepts(l: Ledger, e: Event) {
    e.Send? && l.phase != Disconnected && !(l.waiting == [] && e.result == Failed(true))
  }

  function Plain(l: Ledger, e: Event): Ledger {
    match e
    case Send(msg, result) =>
      if l.phase == Disconnected then l
      else if l.waiting != [] then l.(waiting := l.waiting + msg)
      else if result == Failed(true) then l.(phase := Disconnected)
      else Written(l, msg, result)
    case Writable(result) =>
      if l.phase == Disconnected || l.waiting == [] then l
      else
        var l' := Written(l, l.waiting, result);
        l'.(halfClosed := l.halfClosed || (l.phase == Disconnecting && l'.waiting == []))
    case Close => l.(phase := Disconnected)
    case AskShutdown(spurious) =>
      if l.phase == Connected && !spurious then l.(phase := Disconnecting, queued := l.queued + 1) else l
    case RunShutdown =>
      if l.queued == 0 then l
      else l.(queued := l.queued - 1, halfClosed := l.halfClosed || l.phase == Disconnected || l.waiting == [])
    case Reading(_) => l
  }

  /** The ledger after a run that started on a fresh connection. */
  function Outcome(events: seq<Event>): Ledger {
    if events == [] then Ledger(Connected, [], [], false, 0)
    else Plain(Outcome(events[..|events| - 1]), events[|events| - 1])
  }

  /** The bytes of all messages taken over, in order. */
  function AcceptedBytes(events: seq<Event>): seq<Byte> {
    if events == [] then []
    else
      var n := |events| - 1;
      AcceptedBytes(events[..n]) + (if Accepts(Outcome(events[..n]), events[n]) then events[n].msg else [])
  }

  lemma {:induction false} PlainConserves(events: seq<Event>)
    ensures AcceptedBytes(events) == Outcome(events).sent + Outcome(events).waiting
    decreases |events|
  {
    if events != [] {
      var n := |events| - 1;
      PlainConserves(events[..n]);
      PlainStep(Outcome(events[..n]), events[n]);
    }
  }

  lemma PlainStep(l: Ledger, e: Event)
    ensures Plain(l, e).sent + Plain(l, e).waiting == l.sent + l.waiting + (if Accepts(l, e) then e.msg else [])
  {
    match e
    case Send(msg, result) => if l.waiting == [] { assert l.sent + l.waiting == l.sent; }
    case _ =>
  }

  lemma Rest(sent: seq<Byte>, a: seq<Byte>, b: seq<Byte>)
    requires sent + a == sent + b
    ensures a == b
  {
    assert a == (sent + a)[|sent|..] && b == (sent + b)[|sent|..];
  }

  /**
   The deferred half-close is never dropped: a connection that is shutting down has a
   half-close queued, has issued it, or still has bytes to send, after which it follows.
   */
  lemma {:induction false} HalfCloseNotDropped(events: seq<Event>)
    ensures var l := Outcome(events);
      l.phase == Disconnecting && l.queued == 0 ==> l.halfClosed || l.waiting != []
    decreases |events|
  {
    if events != [] {
      var n := |events| - 1;
      HalfCloseNotDropped(events[..n]);
      KeepsHalfClose(Outcome(events[..n]), events[n]);
    }
  }

  lemma KeepsHalfClose(l: Ledger, e: Event)
    requires l.phase == Disconnecting && l.queued == 0 ==> l.halfClosed || l.waiting != []
    ensures var l' := Plain(l, e);
      l'.phase == Disconnecting && l'.queued == 0 ==> l'.halfClosed || l'.waiting != []
  {}

  /**
   Every run of a fresh connection, with any results of `write`, ends where the plain ledger
   does; so what the socket took followed by what waits is the stream of accepted bytes,
   write interest is on exactly while something waits, and a half-close is not dropped.
   */
  method Replay(events: seq<Event>, fd: int)
    returns (phase: State, waiting: seq<Byte>, writing: bool, halfClosed: bool, queued: nat, sent: seq<Byte>)
    requires TotalLength(events) < Limit
    ensures Ledger(phase, sent, waiting, halfClosed, queued) == Outcome(events)
    ensures sent + waiting == AcceptedBytes(events)
    ensures writing <==> phase != Disconnected && waiting != []
    ensures phase == Disconnecting && queued == 0 ==> halfClosed || waiting != []
  {
    hide *;
    PlainConserves(events);
    HalfCloseNotDropped(events);
    var c := Established(fd);
    NothingYet(events);
    c.Known();
    for i := 0 to |events|
      invariant c.Valid() && c.state != Connecting
      invariant fresh(c) && fresh(c.channel) && fresh(c.channel.poller) && fresh(c.writeBuffer)
      invariant c.writeBuffer.Valid() && c.AsLedger() == Outcome(events[..i])
      invariant c.writeBuffer.writeIndex <= TotalLength(events[..i])
    {
      TotalGrows(events, i);
      OneMore(events, i);
      c.Handle(events[i]);
      c.Known();
    }
    assert events[..|events|] == events;
    c.Known();
    phase, waiting, halfClosed, queued := c.state, c.writeBuffer.Contents(), c.halfClosed, c.shutdownQueued;
    writing, sent := c.channel.IsWriting(), c.sent;
  }

  lemma NothingYet(events: seq<Event>)
    ensures Outcome(events[..0]) == Ledger(Connected, [], [], false, 0) && TotalLength(events[..0]) == 0
  {}

  lemma OneMore(events: seq<Event>, i: nat)
    requires i < |events|
    ensures Outcome(events[..i + 1]) == Plain(Outcome(events[..i]), events[i])
    ensures TotalLength(events[..i + 1]) == TotalLength(events[..i]) + Length(events[i])
  {
    assert events[..i + 1][..i] == events[..i];
    hide Plain, Length;
  }

  /** A connection as server and client set it up. */
  method Established(fd: int) returns (c: Connection)
    ensures fresh(c) && fresh(c.channel) && fresh(c.channel.poller) && fresh(c.writeBuffer)
    ensures c.Valid() && c.AsLedger() == Ledger(Connected, [], [], false, 0) && c.writeBuffer.writeIndex == 0
    ensures c.accepted == []
  {
    var poller := new EpollPoller();
    var channel := new EventChannel(poller, fd);
    var buffer := new Buffer(1024);
    c := new Connection(channel, buffer);
    c.ConnectEstablished();
  }

  lemma {:induction false} TotalGrows(events: seq<Event>, i: nat)
    requires i < |events|
    ensures TotalLength(events[..i]) + Length(events[i]) <= TotalLength(events)
    decreases |events|
  {
    var n := |events| - 1;
    if i < n {
      TotalGrows(events[..n], i);
      assert events[..n][..i] == events[..i];
    }
  }

  /**
   A half-close that runs after the connection was closed is issued although accepted bytes
   were never sent: the closed state is the one exception.
   */
  method HalfCloseAfterClose(b: Byte) returns (c: Connection)
    ensures c.Valid() && c.halfClosed && c.sent == [] && c.accepted == [b]
  {
    assert 1 < Limit;
    hide *;
    c := Established(3);
    c.Known();
    c.SendInLoop([b], Failed(false));
    c.Shutdown(false);
    c.CloseNow();
    c.RunQueuedShutdown();
  }
}
