/** Splitting an H.264 byte stream (h264_encoder.cc); the codec's output is an arbitrary byte sequence. */
module H264 {
  import opened Protocol
  import opened Framing

  /** A start code of three or four bytes at p, inside the buffer. */
  predicate StartCode(data: Bytes, p: nat) {
    && p + 3 <= |data| && data[p] == 0 && data[p + 1] == 0
    && (data[p + 2] == 1 || (data[p + 2] == 0 && p + 4 <= |data| && data[p + 3] == 1))
  }

  /** The leftmost start code from `from` on. */
  function NextStart(data: Bytes, from: nat): (r: Option<nat>)
    ensures r.Some? ==> from <= r.value && StartCode(data, r.value)
    ensures forall p :: from <= p && (r.Some? ==> p < r.value) ==> !StartCode(data, p)
    decreases |data| - from
  {
    if from >= |data| then None
    else if StartCode(data, from) then Some(from)
    else NextStart(data, from + 1)
  }

  /** Where the nth unit after the one at offset 0 starts. */
  function NthStart(data: Bytes, n: nat): Option<nat> {
    if n == 0 then Some(0)
    else match NthStart(data, n - 1)
      case None => None
      case Some(off) => NextStart(data, off + 2)
  }

  lemma {:induction false} EarlierStarts(data: Bytes, n: nat, k: nat)
    requires k <= n && NthStart(data, n).Some?
    ensures NthStart(data, k).Some?
  {
    if k < n { EarlierStarts(data, n - 1, k); }
  }

  /** The C++ scans without a bound; when the start codes are there it never reads past the buffer. */
  method SeekNalu(data: Bytes, numNalu: nat) returns (off: nat)
    requires NthStart(data, numNalu).Some?
    ensures Some(off) == NthStart(data, numNalu)
  {
    hide NextStart;
    off := 0;
    for i := 0 to numNalu
      invariant Some(off) == NthStart(data, i)
    {
      EarlierStarts(data, numNalu, i + 1);
      off := ScanToStart(data, off + 2);
    }
  }

  /** The inner loop. */
  method ScanToStart(data: Bytes, from: nat) returns (tmp: nat)
    requires NextStart(data, from).Some?
    ensures NextStart(data, from) == Some(tmp)
  {
    ghost var next := NextStart(data, from).value;
    tmp := from;
    while true
      invariant from <= tmp <= next
      decreases next - tmp
    {
      if data[tmp] == 0 && data[tmp + 1] == 0 && data[tmp + 2] == 0 && data[tmp + 3] == 1 {
        break;
      } else if data[tmp] == 0 && data[tmp + 1] == 0 && data[tmp + 2] == 1 {
        break;
      }
      assert !StartCode(data, tmp);
      tmp := tmp + 1;
    }
    assert StartCode(data, tmp);
  }

  /** Where the units start, written out: the first at offset 0, each later one at the leftmost three bytes 0, 0, 1 or
      four bytes 0, 0, 0, 1 that begin two bytes past the one before or later. */
  ghost predicate UnitStarts(data: Bytes, starts: seq<nat>) {
    && starts != [] && starts[0] == 0
    && forall i :: 0 < i < |starts| ==> Follows(data, starts[i - 1], starts[i])
  }

  ghost predicate Follows(data: Bytes, p: nat, q: nat) {
    && p + 2 <= q && HasCode(data, q) && forall r :: p + 2 <= r < q ==> !HasCode(data, r)
  }

  ghost predicate HasCode(data: Bytes, p: nat) {
    (p + 3 <= |data| && data[p..p + 3] == [0, 0, 1]) || (p + 4 <= |data| && data[p..p + 4] == [0, 0, 0, 1])
  }

  lemma CodeIs(data: Bytes, p: nat)
    ensures StartCode(data, p) <==> HasCode(data, p)
  {
    if p + 3 <= |data| {
      assert data[p..p + 3] == [data[p], data[p + 1], data[p + 2]];
      if p + 4 <= |data| { assert data[p..p + 4] == [data[p], data[p + 1], data[p + 2], data[p + 3]]; }
    }
  }

  /** That is what is sought: the nth position found is the last of n + 1 such starts. */
  lemma {:induction false} StartsFound(data: Bytes, n: nat) returns (starts: seq<nat>)
    requires NthStart(data, n).Some?
    ensures UnitStarts(data, starts) && |starts| == n + 1 && NthStart(data, n) == Some(starts[n])
  {
    if n == 0 {
      starts := [0];
    } else {
      EarlierStarts(data, n, n - 1);
      var before := StartsFound(data, n - 1);
      var q := NthStart(data, n).value;
      starts := before + [q];
      StartFollows(data, before[n - 1], q);
      hide Follows, NextStart;
    }
  }

  lemma StartFollows(data: Bytes, p: nat, q: nat)
    requires NextStart(data, p + 2) == Some(q)
    ensures Follows(data, p, q)
  {
    hide StartCode, HasCode;
    CodeIs(data, q);
    forall r | p + 2 <= r < q ensures !HasCode(data, r) {
      CodeIs(data, r);
    }
  }

  /** And it is found whenever it is there. */
  lemma {:induction false} StartsThere(data: Bytes, starts: seq<nat>)
    requires UnitStarts(data, starts)
    ensures NthStart(data, |starts| - 1) == Some(starts[|starts| - 1])
  {
    var n := |starts| - 1;
    if n > 0 {
      StartsThere(data, starts[..n]);
      var p, q := starts[n - 1], starts[n];
      CodeIs(data, q);
      forall r | p + 2 <= r < q ensures !StartCode(data, r) {
        CodeIs(data, r);
      }
      NextStartIs(data, p + 2, q);
      hide StartCode, HasCode, NextStart;
    }
  }

  // ---------- The byte stream format ----------

  /** A start code of four bytes or three, and a NAL unit. */
  datatype Unit = Unit(long: bool, nal: Bytes)

  /** What ITU-T H.264, sections 7.3.1 and 7.4.1, promises of a NAL unit: no three bytes in it look like the
      beginning of a start code, and it does not end in zero. */
  ghost predicate Clean(nal: Bytes) {
    && nal != [] && nal[|nal| - 1] != 0
    && forall i :: 0 <= i < |nal| - 2 ==> !(nal[i] == 0 && nal[i + 1] == 0 && nal[i + 2] <= 1)
  }

  function UnitBytes(u: Unit): Bytes {
    (if u.long then [0, 0, 0, 1] else [0, 0, 1]) + u.nal
  }

  function ByteStream(us: seq<Unit>): Bytes {
    if us == [] then [] else ByteStream(us[..|us| - 1]) + UnitBytes(us[|us| - 1])
  }

  ghost predicate AllClean(us: seq<Unit>) {
    forall i :: 0 <= i < |us| ==> Clean(us[i].nal)
  }

  lemma NoCodeInside(before: Bytes, u: Unit, after: Bytes, p: nat)
    requires Clean(u.nal)
    requires |before| + 2 <= p < |before| + |UnitBytes(u)|
    ensures !StartCode(before + UnitBytes(u) + after, p)
  {
    var data := before + UnitBytes(u) + after;
    assert forall i :: 0 <= i < |UnitBytes(u)| ==> data[|before| + i] == UnitBytes(u)[i];
    var l := if u.long then 4 else 3;
    var q := p - |before|;
    if q >= l {
      var r := q - l;
      assert data[p] == u.nal[r];
      assert r + 1 < |u.nal| ==> data[p + 1] == u.nal[r + 1];
      assert r + 2 < |u.nal| ==> data[p + 2] == u.nal[r + 2];
    }
  }

  lemma CodeAtUnit(before: Bytes, u: Unit, after: Bytes)
    ensures StartCode(before + UnitBytes(u) + after, |before|)
  {
    var data := before + UnitBytes(u) + after;
    assert forall i :: 0 <= i < |UnitBytes(u)| ==> data[|before| + i] == UnitBytes(u)[i];
  }

  lemma StreamSplit(us: seq<Unit>, n: nat) returns (tail: Bytes)
    requires n <= |us|
    ensures ByteStream(us) == ByteStream(us[..n]) + tail
  {
    if n == |us| {
      assert us[..n] == us;
      tail := [];
    } else {
      var front := us[..|us| - 1];
      var t := StreamSplit(front, n);
      assert front[..n] == us[..n];
      tail := t + UnitBytes(us[|us| - 1]);
    }
  }

  lemma NextStartIs(data: Bytes, from: nat, k: nat)
    requires from <= k && StartCode(data, k) && forall p :: from <= p < k ==> !StartCode(data, p)
    ensures NextStart(data, from) == Some(k)
  {
    hide StartCode;
  }

  lemma NextUnit(data: Bytes, before: Bytes, u: Unit, next: Unit, after: Bytes)
    requires Clean(u.nal) && data == before + UnitBytes(u) + UnitBytes(next) + after
    ensures NextStart(data, |before| + 2) == Some(|before + UnitBytes(u)|)
  {
    hide StartCode, UnitBytes, Clean, NextStart;
    assert data == before + UnitBytes(u) + (UnitBytes(next) + after);
    CodeAtUnit(before + UnitBytes(u), next, after);
    UnitNotShort(u);
    forall p | |before| + 2 <= p < |before| + |UnitBytes(u)| ensures !StartCode(data, p) {
      NoCodeInside(before, u, UnitBytes(next) + after, p);
    }
    NextStartIs(data, |before| + 2, |before + UnitBytes(u)|);
  }

  lemma UnitNotShort(u: Unit)
    ensures |UnitBytes(u)| >= 3
  {
  }

  lemma StreamSnoc(us: seq<Unit>, n: nat)
    requires n < |us|
    ensures ByteStream(us[..n + 1]) == ByteStream(us[..n]) + UnitBytes(us[n])
  {
    assert us[..n + 1][..n] == us[..n];
  }

  /** In a well-formed byte stream the nth start found is the start of the nth NAL unit. */
  lemma {:induction false} SeekFindsUnits(us: seq<Unit>, n: nat)
    requires AllClean(us) && n < |us|
    ensures NthStart(ByteStream(us), n) == Some(|ByteStream(us[..n])|)
  {
    hide NextStart, UnitBytes, Clean, AllClean;
    if n > 0 {
      SeekFindsUnits(us, n - 1);
      hide ByteStream;
      SeekNext(us, n);
    }
  }

  lemma SeekNext(us: seq<Unit>, n: nat)
    requires AllClean(us) && 0 < n < |us|
    ensures NextStart(ByteStream(us), |ByteStream(us[..n - 1])| + 2) == Some(|ByteStream(us[..n])|)
  {
    hide NextStart, ByteStream, UnitBytes, Clean;
    StreamSnoc(us, n - 1);
    StreamSnoc(us, n);
    var tail := StreamSplit(us, n + 1);
    NextUnit(ByteStream(us), ByteStream(us[..n - 1]), us[n - 1], us[n], tail);
  }

  /** When the first packet is a byte stream of at least three units, what encode_frame moves to the video
      params is exactly its first two: the parameter sets. */
  lemma ParameterSetsSplit(us: seq<Unit>)
    requires AllClean(us) && |us| >= 3
    ensures NthStart(ByteStream(us), 2).Some?
    ensures ByteStream(us)[..NthStart(ByteStream(us), 2).value] == ByteStream(us[..2])
  {
    SeekFindsUnits(us, 2);
    var tail := StreamSplit(us, 2);
  }

  // ---------- The encoder ----------

  class H264Encoder {
    var pts: int
    var ppsSps: Bytes
    ghost var produced: Bytes    // what the codec has returned since the start or the last shutdown
    ghost var emitted: Bytes     // what encode_frame has appended to packets since then

    /** No byte of the codec's output is lost, repeated or reordered. */
    ghost predicate Valid()
      reads this
    {
      ppsSps + emitted == produced && (pts == 0 ==> produced == []) && pts >= 0
    }

    constructor ()
      ensures Valid() && pts == 0 && ppsSps == [] && produced == [] && emitted == []
    {
      pts, ppsSps, produced, emitted := 0, [], [], [];
    }

    /** codec is the packet the codec returned, None when it returned an error status. */
    method EncodeFrame(codec: Option<Bytes>, packetIn: Bytes) returns (packetOut: Bytes)
      requires Valid()
      requires codec.Some? && pts == 0 ==> NthStart(codec.value, 2).Some?
      modifies this
      ensures Valid()
      ensures codec.None? ==> packetOut == packetIn && pts == old(pts) && ppsSps == old(ppsSps)
                              && produced == old(produced) && emitted == old(emitted)
      ensures codec.Some? ==> pts == old(pts) + 1 && produced == old(produced) + codec.value
      ensures codec.Some? && old(pts) == 0 ==> ppsSps == old(ppsSps) + codec.value[..NthStart(codec.value, 2).value]
      ensures codec.Some? && old(pts) > 0 ==> ppsSps == old(ppsSps)
      ensures codec.Some? ==>
                packetOut == packetIn + if old(pts) == 0 then codec.value[NthStart(codec.value, 2).value..]
                                        else codec.value
      ensures codec.Some? ==> emitted == old(emitted) + packetOut[|packetIn|..]
    {
      packetOut := packetIn;
      if codec.None? { return; }
      var packetData := codec.value;
      if pts == 0 {
        var ppsSpsEnd := SeekNalu(packetData, 2);
        ppsSps := ppsSps + packetData[..ppsSpsEnd];
        packetData := packetData[ppsSpsEnd..];
      }
      pts := pts + 1;
      packetOut := packetOut + packetData;
      produced := produced + codec.value;
      emitted := emitted + packetData;
      assert ppsSps + emitted == produced;
    }

    method Shutdown()
      modifies this
      ensures Valid() && pts == 0 && ppsSps == []
    {
      pts, ppsSps, produced, emitted := 0, [], [], [];
    }

    /** The parameter sets come out exactly when there are any, and are what is missing from the packets emitted;
        otherwise the packets alone are all that was produced. */
    method GetPpsSps(packetIn: Bytes) returns (ok: bool, packetOut: Bytes)
      requires Valid()
      ensures ok <==> emitted != produced
      ensures packetOut == if ok then ppsSps else packetIn
      ensures ok ==> packetOut + emitted == produced
    {
      ok := ppsSps != [];
      packetOut := if ok then ppsSps else packetIn;
      assert ppsSps == [] ==> ppsSps + emitted == emitted;
      assert ppsSps != [] ==> |produced| > |emitted|;
    }
  }
}
