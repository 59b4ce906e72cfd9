/**
 * The receive side of the transport (class ArtNetReceiver): each datagram is screened
 * by its protocol ID, classified by its op-code, and an ArtDmx frame is decoded and
 * published as one DMX update. The socket, the awaits and the reactive subject are
 * replaced by a sequence of datagrams and an event log.
 */
module Receiver {
  import opened Wrappers
  import opened Core
  import opened Data
  import opened Packet

  /** True exactly when the buffer holds at least 8 bytes and they are the Art-Net ID. */
  function IsArtNetID(b: seq<uint8>): (r: bool)
    ensures r <==> |b| >= 8 && b[..8] == ID
  {
    |b| >= 8
    && b[0] == ID[0] && b[1] == ID[1] && b[2] == ID[2] && b[3] == ID[3]
    && b[4] == ID[4] && b[5] == ID[5] && b[6] == ID[6] && b[7] == ID[7]
  }

  /** The little-endian op-code in bytes 8 and 9, or `OpNone` when the buffer is shorter. */
  function GetOpCodeType(b: seq<uint8>): (r: OpCode)
    ensures |b| < 10 ==> r == OpNone
    ensures |b| >= 10 ==> r % 256 == b[8] && r / 256 == b[9]
  {
    if |b| < 10 then OpNone else Word(b[9], b[8])
  }

  /** What one datagram does to the receive loop. */
  datatype Outcome =
    | Ignored                   // not Art-Net, or not an ArtDmx op-code: the loop goes on
    | Published(dmx: ArtDmxData) // one DMX update is published: the loop goes on
    | Faulted(error: Error)     // a constructor threw: the exception ends the loop

  /** The body of the receive loop for one datagram that arrived before cancellation. */
  function Dispatch(b: seq<uint8>): (r: Outcome)
    ensures !IsArtNetID(b) ==> r == Ignored
    ensures GetOpCodeType(b) != OpDmx ==> r == Ignored
    ensures r.Published? ==> r.dmx.Valid() && Decode(b).Success?
    ensures r.Published? ==> r.dmx.Universe() == Decode(b).value.universe && r.dmx.data == Decode(b).value.data
  {
    if !IsArtNetID(b) then Ignored
    else if GetOpCodeType(b) != OpDmx then Ignored
    else match Decode(b)
      case Failure(e) => Faulted(e)
      case Success(packet) =>
        match DmxFromUniverse(packet.universe, packet.data)
        case Failure(e) => Faulted(e)
        case Success(dmx) => Published(dmx)
  }

  /**
   * An ArtDmx frame the constructors reject: outside 18..530 bytes, a declared Length
   * of 0 or past the end of the buffer, or a Net byte above 127.
   */
  predicate Malformed(b: seq<uint8>) {
    || |b| < HeaderSize
    || |b| > MaxFrameSize
    || DeclaredLength(b) == 0
    || HeaderSize + DeclaredLength(b) > |b|
    || b[15] > 127
  }

  /** An Art-Net ArtDmx datagram ends the loop exactly when it is malformed. */
  lemma DispatchFaultsExactly(b: seq<uint8>)
    ensures Dispatch(b).Faulted? <==> IsArtNetID(b) && GetOpCodeType(b) == OpDmx && Malformed(b)
  {
    if IsArtNetID(b) && GetOpCodeType(b) == OpDmx && Decode(b).Success? {
      var packet := Decode(b).value;
      assert packet.universe == Word(b[15], b[14]);
    }
  }

  /**
   * A well-formed ArtDmx datagram publishes one update carrying the decoded
   * Port-Address and the decoded payload.
   */
  lemma DispatchPublishesWellFormed(b: seq<uint8>)
    requires IsArtNetID(b) && GetOpCodeType(b) == OpDmx && !Malformed(b)
    ensures Dispatch(b).Published?
    ensures Dispatch(b).dmx.Universe() == Word(b[15], b[14])
    ensures Dispatch(b).dmx.data == b[HeaderSize..HeaderSize + DeclaredLength(b)]
  {
    DispatchFaultsExactly(b);
  }

  /** What the loop has done after a run of datagrams: the events it published and the fault that ended it. */
  datatype LoopState = LoopState(events: seq<ArtDmxData>, fault: Option<Error>)

  /**
   * The receive loop over datagrams delivered in order, with no cancellation: each
   * datagram publishes at most one event, and the first fault ends the loop.
   */
  function Run(datagrams: seq<seq<uint8>>): (r: LoopState)
    ensures |r.events| <= |datagrams|
    decreases |datagrams|
  {
    if datagrams == [] then LoopState([], None)
    else match Dispatch(datagrams[0])
      case Ignored => Run(datagrams[1..])
      case Published(dmx) =>
        var rest := Run(datagrams[1..]);
        LoopState([dmx] + rest.events, rest.fault)
      case Faulted(e) => LoopState([], Some(e))
  }

  /**
   * Running two batches one after the other: the events of the second follow those of
   * the first, unless the first ended the loop, in which case the second is never read.
   */
  lemma {:induction false} RunAppend(ds: seq<seq<uint8>>, es: seq<seq<uint8>>)
    ensures Run(ds).fault.None? ==> Run(ds + es) == LoopState(Run(ds).events + Run(es).events, Run(es).fault)
    ensures Run(ds).fault.Some? ==> Run(ds + es) == Run(ds)
    decreases |ds|
  {
    if ds == [] {
      assert ds + es == es;
    } else {
      assert (ds + es)[0] == ds[0];
      assert (ds + es)[1..] == ds[1..] + es;
      RunAppend(ds[1..], es);
    }
  }

  /** One more datagram extends the log by exactly what `Dispatch` says about it. */
  lemma RunSnoc(ds: seq<seq<uint8>>, b: seq<uint8>)
    requires Run(ds).fault.None?
    ensures Dispatch(b).Ignored? ==> Run(ds + [b]) == Run(ds)
    ensures Dispatch(b).Published? ==> Run(ds + [b]) == LoopState(Run(ds).events + [Dispatch(b).dmx], None)
    ensures Dispatch(b).Faulted? ==> Run(ds + [b]) == LoopState(Run(ds).events, Some(Dispatch(b).error))
  {
    RunAppend(ds, [b]);
    assert [b][1..] == [];
  }

  /** Every published event is the update of some datagram of the run. */
  lemma {:induction false} RunEventsComeFromDatagrams(ds: seq<seq<uint8>>, k: nat)
    requires k < |Run(ds).events|
    ensures exists j :: 0 <= j < |ds| && Dispatch(ds[j]) == Published(Run(ds).events[k])
    decreases |ds|
  {
    if ds != [] {
      match Dispatch(ds[0])
      case Ignored =>
        RunEventsComeFromDatagrams(ds[1..], k);
        var j :| 0 <= j < |ds[1..]| && Dispatch(ds[1..][j]) == Published(Run(ds[1..]).events[k]);
        assert ds[j + 1] == ds[1..][j];
      case Published(dmx) =>
        if k > 0 {
          RunEventsComeFromDatagrams(ds[1..], k - 1);
          var j :| 0 <= j < |ds[1..]| && Dispatch(ds[1..][j]) == Published(Run(ds[1..]).events[k - 1]);
          assert ds[j + 1] == ds[1..][j];
        } else {
          assert Dispatch(ds[0]) == Published(Run(ds).events[0]);
        }
      case Faulted(_) =>
    }
  }

  /**
   * The receiver: the disposal flag, the cancellation token, the socket and the
   * subject it owns, whether its receive loop has ended (and by which exception),
   * and the log of updates published to subscribers.
   */
  class ArtNetReceiver {
    var disposed: bool
    var cancellationRequested: bool
    var socketOpen: bool
    var subjectOpen: bool
    var stopped: bool
    var fault: Option<Error>
    var events: seq<ArtDmxData>

    /**
     * Disposal cancels the token and closes the socket and the subject together; the
     * loop only ends by disposal or by a fault, and an exception always ends it.
     */
    ghost predicate Valid()
      reads this
    {
      && cancellationRequested == disposed
      && socketOpen == !disposed
      && subjectOpen == !disposed
      && (stopped ==> disposed || fault.Some?)
      && (fault.Some? ==> stopped)
    }

    /** A new receiver: socket bound, loop started, nothing published. */
    constructor ()
      ensures Valid()
      ensures !disposed && !stopped && fault == None && events == []
    {
      disposed := false;
      cancellationRequested := false;
      socketOpen := true;
      subjectOpen := true;
      stopped := false;
      fault := None;
      events := [];
    }

    /**
     * `Dispose()`: the first call sets the flag, closes the socket, cancels the token
     * and disposes the subject; every later call returns at once.
     */
    method Dispose()
      requires Valid()
      modifies this
      ensures Valid() && disposed
      ensures old(disposed) ==> unchanged(this)
      ensures !socketOpen && !subjectOpen && cancellationRequested
      ensures events == old(events) && stopped == old(stopped) && fault == old(fault)
    {
      if disposed {
        return;
      }
      disposed := true;
      socketOpen := false;
      cancellationRequested := true;
      subjectOpen := false;
    }

    /**
     * One turn of the receive loop with the datagram `buffer`. A loop that has ended
     * reads nothing. Once cancellation is requested the loop ends without publishing
     * (the closed socket raises ObjectDisposedException, which is caught, or the token
     * throws). Otherwise the datagram is screened, classified and, for ArtDmx,
     * decoded; any exception other than ObjectDisposedException ends the loop.
     */
    method Receive(buffer: seq<uint8>)
      requires Valid()
      modifies this
      ensures Valid()
      ensures disposed == old(disposed)
      ensures old(stopped) ==> unchanged(this)
      ensures !old(stopped) && old(cancellationRequested) ==>
        stopped && events == old(events) && fault == old(fault)
      ensures !old(stopped) && !old(cancellationRequested) ==>
        match Dispatch(buffer)
        case Ignored => !stopped && events == old(events) && fault == None
        case Published(dmx) => !stopped && events == old(events) + [dmx] && fault == None
        case Faulted(e) => stopped && events == old(events) && fault == Some(e)
    {
      if stopped {
        return;
      }
      if cancellationRequested {
        stopped := true;
        return;
      }
      if !IsArtNetID(buffer) {
        return;
      }
      if GetOpCodeType(buffer) != OpDmx {
        return;
      }
      var packet := FromBytes(buffer);
      if packet.Failure? {
        stopped, fault := true, Some(packet.error);
        return;
      }
      var dmx := DmxFromUniverse(packet.value.universe, packet.value.data);
      if dmx.Failure? {
        stopped, fault := true, Some(dmx.error);
        return;
      }
      events := events + [dmx.value];
    }

    /**
     * The receive loop fed with `datagrams` in arrival order: what it publishes and
     * how it ends are given by `Run`.
     */
    method ReceiveAll(datagrams: seq<seq<uint8>>)
      requires Valid()
      modifies this
      ensures Valid()
      ensures disposed == old(disposed)
      ensures old(stopped) ==> unchanged(this)
      ensures old(cancellationRequested) ==> events == old(events)
      ensures !old(stopped) && old(cancellationRequested) ==>
        fault == None && stopped == (|datagrams| > 0)
      ensures !old(stopped) && !old(cancellationRequested) ==>
        events == old(events) + Run(datagrams).events && fault == Run(datagrams).fault
        && stopped == Run(datagrams).fault.Some?
    {
      var i := 0;
      while i < |datagrams| && !stopped
        invariant 0 <= i <= |datagrams|
        invariant Valid() && disposed == old(disposed)
        invariant old(stopped) ==> unchanged(this)
        invariant old(cancellationRequested) ==> events == old(events)
        invariant !old(stopped) && old(cancellationRequested) ==> fault == None && stopped == (i > 0)
        invariant !old(stopped) && !old(cancellationRequested) ==>
          events == old(events) + Run(datagrams[..i]).events && fault == Run(datagrams[..i]).fault
          && stopped == Run(datagrams[..i]).fault.Some?
      {
        if !old(stopped) && !old(cancellationRequested) {
          RunSnoc(datagrams[..i], datagrams[i]);
          assert datagrams[..i + 1] == datagrams[..i] + [datagrams[i]];
        }
        Receive(datagrams[i]);
        i := i + 1;
      }
      if !old(stopped) && !old(cancellationRequested) {
        RunAppend(datagrams[..i], datagrams[i..]);
        assert datagrams[..i] + datagrams[i..] == datagrams;
      }
    }
  }

  /**
   * Send then receive: the frame the sender builds for a DMX update,
   * `ToBytes(ArtDmxPacket(d.Universe, d.Data))`, is published by a receiver as the
   * same update.
   */
  lemma SentFrameIsReceived(d: ArtDmxData)
    requires d.Valid()
    ensures CreateDefault(d.Universe(), d.data).Success?
    ensures Dispatch(Encode(CreateDefault(d.Universe(), d.data).value)) == Published(d)
  {
    var packet := CreateDefault(d.Universe(), d.data).value;
    var b := Encode(packet);
    EncodeThenDecode(packet);
    assert b[..8] == ID;
  }
}
