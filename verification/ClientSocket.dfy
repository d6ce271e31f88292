/** The daemon's sending and receiving ends (client_socket.cc, chunk_buffer.hh), over a network whose answers
    are a script: what each ::send and ::recv call will return. */
module ClientSocket {
  import opened Protocol
  import opened Framing

  /** Took(n): the network accepted up to n of the offered bytes. WouldBlock is WSA error 10035. */
  datatype SendResult = Took(n: nat) | WouldBlock | Failed

  /** Closed: the peer is gone, and this and every later ::recv returns no bytes and no error. */
  datatype RecvResult = Chunk(bytes: Bytes) | NothingYet | Broken | Closed

  datatype ReceiveStatus = Failure | Continue | Success

  ghost predicate NoHardError(script: seq<SendResult>) {
    Failed !in script
  }

  class Socket {
    var script: seq<SendResult>
    var incoming: seq<RecvResult>
    var stream: Bytes            // every byte the network has accepted

    constructor (script: seq<SendResult>, incoming: seq<RecvResult>)
      ensures this.script == script && this.incoming == incoming && stream == []
    {
      this.script, this.incoming, stream := script, incoming, [];
    }

    /** One ::send of data[offset..offset + len]. */
    method Send(data: Bytes, offset: nat, len: nat) returns (r: SendResult)
      requires script != [] && offset + len <= |data|
      modifies this`script, this`stream
      ensures script == old(script)[1..]
      ensures r.Took? ==> r.n <= len && stream == old(stream) + data[offset..offset + r.n]
      ensures !r.Took? ==> stream == old(stream)
      ensures r.Failed? <==> old(script)[0].Failed?
    {
      r := script[0];
      script := script[1..];
      if r.Took? {
        r := Took(if r.n < len then r.n else len);
        stream := stream + data[offset..offset + r.n];
      }
    }

    /** None: the call is still looping when the script ends. On true the stream has grown by exactly the
        given bytes, otherwise by a prefix of them. */
    method SendBlock(data: Bytes) returns (r: Option<bool>)
      modifies this`script, this`stream
      ensures old(stream) <= stream <= old(stream) + data
      ensures r == Some(true) ==> stream == old(stream) + data
      ensures r == None ==> script == []
      ensures Consumed(old(script), script, r == Some(false))
    {
      var offset, len := 0, |data|;
      var again := true;
      while again
        invariant 0 <= offset && 0 <= len && offset + len == |data|
        invariant stream == old(stream) + data[..offset]
        invariant !again ==> len == 0
        invariant Consumed(old(script), script, false)
        decreases |script|, again
      {
        if script == [] { return None; }
        var amtSent := Send(data, offset, len);
        if amtSent.Failed? {
          return Some(false);
        } else if amtSent.Took? {
          assert data[..offset] + data[offset..offset + amtSent.n] == data[..offset + amtSent.n];
          offset := offset + amtSent.n;
          len := len - amtSent.n;
        }
        again := len > 0;
      }
      return Some(true);
    }

    /** The length, then the bytes; the second block is sent even when the first has failed. A true send_data
        appends exactly one frame. */
    method SendData(data: Bytes) returns (r: Option<bool>)
      requires |data| < TWO_31
      modifies this`script, this`stream
      ensures r == Some(true) ==> stream == old(stream) + Frame(data)
      ensures PartlySent(old(stream), data, stream)
      ensures r == None ==> script == []
      ensures NoHardError(old(script)) ==>
                NoHardError(script) && r != Some(false) && old(stream) <= stream <= old(stream) + Frame(data)
    {
      ghost var before := stream;
      var r1 := SendBlock(Le32(|data|));
      ghost var i := |stream| - |before|;
      ghost var script1 := script;
      if NoHardError(old(script)) { CleanConsumed(old(script), script1, r1 == Some(false)); }
      assert stream == before + Le32(|data|)[..i];
      if r1 == None {
        assert stream == before + Le32(|data|)[..i] + data[..0];
        assert before + Frame(data) == before + Le32(|data|) + data;
        return None;
      }
      ghost var middle := stream;
      var r2 := SendBlock(data);
      ghost var j := |stream| - |middle|;
      if NoHardError(old(script)) { CleanConsumed(script1, script, r2 == Some(false)); }
      assert stream == before + Le32(|data|)[..i] + data[..j];
      assert r1 == Some(true) ==> before + Frame(data) == middle + data;
      return if r2 == None then None else Some(r1.value && r2.value);
    }

    /** Reads until the first error, which an empty script counts as nothing to read. Once the peer has closed
        there is none, and the loop never ends: None. A chunk holds at most 4096 bytes in the source; the loop
        does not depend on it. */
    method ReceiveData() returns (status: Option<ReceiveStatus>, dataOut: Bytes)
      modifies this`incoming
      ensures var n := Ready(old(incoming));
              && dataOut == Flatten(Chunks(old(incoming)[..n]))
              && incoming == Unread(old(incoming))
              && status == if n == |old(incoming)| || old(incoming)[n].NothingYet?
                           then Some(if n > 0 then ReceiveStatus.Success else Continue)
                           else if old(incoming)[n].Broken? then Some(Failure)
                           else None
    {
      dataOut := [];
      var received := false;
      ghost var n := 0;
      while incoming != [] && incoming[0].Chunk?
        invariant n <= |old(incoming)| && forall i :: 0 <= i < n ==> old(incoming)[i].Chunk?
        invariant dataOut == Flatten(Chunks(old(incoming)[..n]))
        invariant received <==> n > 0
        invariant incoming == old(incoming)[n..]
        decreases |incoming|
      {
        var upTo := old(incoming)[..n];
        assert old(incoming)[..n + 1] == upTo + [incoming[0]];
        ChunksSnoc(upTo, incoming[0]);
        dataOut := dataOut + incoming[0].bytes;
        received := true;
        incoming := incoming[1..];
        n := n + 1;
      }
      ReadyIs(old(incoming), n);
      if incoming != [] && incoming[0].Closed? { return None, dataOut; }
      var broken := incoming != [] && incoming[0].Broken?;
      if incoming != [] { incoming := incoming[1..]; }
      status := Some(if broken then Failure else if received then ReceiveStatus.Success else Continue);
    }
  }

  ghost predicate PartlySent(before: Bytes, data: Bytes, after: Bytes)
    requires |data| < TWO_31
  {
    exists i: nat, j: nat :: i <= 4 && j <= |data| && after == before + Le32(|data|)[..i] + data[..j]
  }

  /** How many reads succeed before the first error. */
  function Ready(incoming: seq<RecvResult>): (n: nat)
    ensures n <= |incoming| && forall i :: 0 <= i < n ==> incoming[i].Chunk?
    ensures n < |incoming| ==> !incoming[n].Chunk?
  {
    if incoming == [] || !incoming[0].Chunk? then 0 else 1 + Ready(incoming[1..])
  }

  lemma {:induction false} ReadyIs(incoming: seq<RecvResult>, n: nat)
    requires n <= |incoming| && (forall i :: 0 <= i < n ==> incoming[i].Chunk?)
    requires n < |incoming| ==> !incoming[n].Chunk?
    ensures Ready(incoming) == n
  {
    if n > 0 { ReadyIs(incoming[1..], n - 1); }
  }

  /** What is left to read: an error is read once, a closed peer for ever. */
  function Unread(incoming: seq<RecvResult>): seq<RecvResult> {
    var n := Ready(incoming);
    if n == |incoming| then []
    else if incoming[n].Closed? then incoming[n..]
    else incoming[n + 1..]
  }

  function Chunks(rs: seq<RecvResult>): seq<Bytes>
    requires forall i :: 0 <= i < |rs| ==> rs[i].Chunk?
  {
    seq(|rs|, i requires 0 <= i < |rs| => rs[i].bytes)
  }

  lemma ChunksSnoc(rs: seq<RecvResult>, r: RecvResult)
    requires r.Chunk? && forall i :: 0 <= i < |rs| ==> rs[i].Chunk?
    ensures Flatten(Chunks(rs + [r])) == Flatten(Chunks(rs)) + r.bytes
  {
    assert Chunks(rs + [r]) == Chunks(rs) + [r.bytes];
    assert (Chunks(rs) + [r.bytes])[..|rs|] == Chunks(rs);
  }

  lemma CleanConsumed(before: seq<SendResult>, after: seq<SendResult>, failed: bool)
    requires Consumed(before, after, failed) && NoHardError(before)
    ensures !failed && NoHardError(after)
  {
    assert |before| > |after| ==> before[|before| - |after| - 1] in before;
  }

  /** after is before without its first calls, of which exactly the last failed, or none. */
  ghost predicate Consumed(before: seq<SendResult>, after: seq<SendResult>, failed: bool) {
    && |after| <= |before| && after == before[|before| - |after|..]
    && (failed ==> |after| < |before|)
    && forall i :: 0 <= i < |before| - |after| ==> (before[i].Failed? <==> failed && i == |before| - |after| - 1)
  }
}
