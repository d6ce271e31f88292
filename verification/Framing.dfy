/** The "message manager" protocol: a message is its length in four little-endian bytes, then its bytes.
    Here is the whole stream at once; the incremental decoders refine it. */
module Framing {
  import opened Protocol

  type Bytes = seq<byte>

  const TWO_31: nat := 0x8000_0000
  const TWO_32: nat := 0x1_0000_0000

  /** The least size a negative length is cast to. */
  const HUGE: nat := 0xFFFF_FFFF_8000_0000

  function Le32(n: nat): Bytes
    requires n < TWO_32
  {
    var (n1, n2, n3) := (n / 256, n / 256 / 256, n / 256 / 256 / 256);
    [(n % 256) as byte, (n1 % 256) as byte, (n2 % 256) as byte, n3 as byte]
  }

  function FromLe32(b: Bytes): (n: nat)
    requires |b| == 4
    ensures n < TWO_32
  {
    b[0] as nat + 256 * (b[1] as nat + 256 * (b[2] as nat + 256 * b[3] as nat))
  }

  /** The four bytes read as an int32_t. */
  function Signed(n: nat): int
    requires n < TWO_32
  {
    if n < TWO_31 then n else n - TWO_32
  }

  /** static_cast<size_t> of an int32_t on a 64-bit machine: a negative length becomes an enormous one. */
  function AsSize(i: int): nat
    requires 0 - TWO_31 <= i < TWO_31
  {
    if i >= 0 then i else TWO_64 + i
  }

  function Declared(b: Bytes): nat
    requires |b| >= 4
  {
    AsSize(Signed(FromLe32(b[..4])))
  }

  /** The stream starts with a whole message. */
  predicate Complete(s: Bytes) {
    |s| >= 4 && |s| - 4 >= Declared(s)
  }

  datatype Parsed = Parsed(messages: seq<Bytes>, rest: Bytes)

  /** All complete messages of a stream, and the unconsumed tail. */
  function Decode(s: Bytes): Parsed
    decreases |s|
  {
    if !Complete(s) then Parsed([], s)
    else
      var later := Decode(s[4 + Declared(s)..]);
      Parsed([s[4..4 + Declared(s)]] + later.messages, later.rest)
  }

  /** No length field reached by decoding has its top bit set. */
  predicate NoNegative(s: Bytes)
    decreases |s|
  {
    |s| < 4 || (FromLe32(s[..4]) < TWO_31 && (Complete(s) ==> NoNegative(s[4 + Declared(s)..])))
  }

  function Frame(m: Bytes): Bytes
    requires |m| < TWO_31
  {
    Le32(|m|) + m
  }

  ghost predicate Sendable(ms: seq<Bytes>) {
    forall i :: 0 <= i < |ms| ==> |ms[i]| < TWO_31
  }

  function EncodeAll(ms: seq<Bytes>): Bytes
    requires Sendable(ms)
  {
    if ms == [] then [] else Frame(ms[0]) + EncodeAll(ms[1..])
  }

  lemma LengthRoundTrip(n: nat)
    requires n < TWO_32
    ensures FromLe32(Le32(n)) == n
  {
  }

  /** A frame, byte by byte: the length with its lowest byte first, then the message. */
  lemma FrameIs(m: Bytes)
    requires |m| < TWO_31
    ensures var f := Frame(m);
            && |f| == 4 + |m| && f[4..] == m
            && f[0] as int == |m| % 256 && f[1] as int == |m| / 256 % 256
            && f[2] as int == |m| / 65536 % 256 && f[3] as int == |m| / 16777216
  {
    var n := |m|;
    assert n / 256 / 256 == n / 65536 && n / 65536 / 256 == n / 16777216;
  }

  /** And the length read back from four bytes. */
  lemma LengthIs(b: Bytes)
    requires |b| == 4
    ensures FromLe32(b) == b[0] as nat + 256 * b[1] as nat + 65536 * b[2] as nat + 16777216 * b[3] as nat
  {
  }

  lemma BytesRoundTrip(b: Bytes)
    requires |b| == 4
    ensures Le32(FromLe32(b)) == b
  {
    var n3 := b[3] as nat;
    var n2 := b[2] as nat + 256 * n3;
    var n1 := b[1] as nat + 256 * n2;
    var n := b[0] as nat + 256 * n1;
    assert n / 256 == n1 && n1 / 256 == n2 && n2 / 256 == n3;
    assert n % 256 == b[0] as nat && n1 % 256 == b[1] as nat && n2 % 256 == b[2] as nat;
  }

  lemma HeaderKept(a: Bytes, b: Bytes)
    requires |a| >= 4
    ensures (a + b)[..4] == a[..4] && Declared(a + b) == Declared(a)
  {
    assert (a + b)[..4] == a[..4];
  }

  lemma HeadKept(a: Bytes, b: Bytes)
    requires Complete(a)
    ensures Complete(a + b) && Declared(a + b) == Declared(a)
    ensures var n := 4 + Declared(a);
            (a + b)[4..n] == a[4..n] && (a + b)[n..] == a[n..] + b
  {
    HeaderKept(a, b);
  }

  /** Decoding can stop anywhere and resume from its tail. */
  lemma {:induction false} DecodeResumes(a: Bytes, b: Bytes)
    ensures var first, whole := Decode(a), Decode(a + b);
            var second := Decode(first.rest + b);
            whole == Parsed(first.messages + second.messages, second.rest)
    decreases |a|
  {
    hide Decode, Declared;
    if Complete(a) {
      var n := 4 + Declared(a);
      HeadKept(a, b);
      DecodeHead(a, n);
      DecodeHead(a + b, n);
      DecodeResumes(a[n..], b);
      Regrouped(a[4..n], Decode(a[n..]).messages, Decode(Decode(a[n..]).rest + b).messages);
    } else {
      DecodeNothing(a);
      assert [] + Decode(a + b).messages == Decode(a + b).messages;
    }
  }

  lemma Regrouped(m: Bytes, ms: seq<Bytes>, ns: seq<Bytes>)
    ensures [m] + (ms + ns) == ([m] + ms) + ns
  {
  }

  lemma DecodeNothing(s: Bytes)
    requires !Complete(s)
    ensures Decode(s) == Parsed([], s)
  {
  }

  lemma DecodeHead(s: Bytes, n: nat)
    requires Complete(s) && n == 4 + Declared(s)
    ensures Decode(s) == Parsed([s[4..n]] + Decode(s[n..]).messages, Decode(s[n..]).rest)
  {
  }

  lemma {:induction false} NegativeResumes(a: Bytes, b: Bytes)
    requires NoNegative(a)
    ensures NoNegative(a + b) <==> NoNegative(Decode(a).rest + b)
    decreases |a|
  {
    hide FromLe32, Declared;
    if Complete(a) {
      HeadKept(a, b);
      HeaderKept(a, b);
      NegativeResumes(a[4 + Declared(a)..], b);
    }
  }

  /** A length field whose top bit is set is a negative one. */
  lemma NegativeIs(a: Bytes, b: Bytes)
    requires NoNegative(a) && Decode(a).rest == [] && |b| == 4
    ensures NoNegative(a + b) <==> b[3] < 128
  {
    NegativeResumes(a, b);
    LengthIs(b);
    assert [] + b == b && b[..4] == b;
    if Complete(b) { assert b[4 + Declared(b)..] == []; }
  }

  lemma DecodeOneFrame(m: Bytes, t: Bytes)
    requires |m| < TWO_31
    ensures Decode(Frame(m) + t) == Parsed([m] + Decode(t).messages, Decode(t).rest)
    ensures NoNegative(Frame(m) + t) <==> NoNegative(t)
  {
    var s := Frame(m) + t;
    LengthRoundTrip(|m|);
    assert s[..4] == Le32(|m|) && s[4..4 + |m|] == m && s[4 + |m|..] == t;
  }

  /** Round trip: decoding the frames of any message list, empty messages included, gives it back. */
  lemma {:induction false} RoundTrip(ms: seq<Bytes>)
    requires Sendable(ms)
    ensures Decode(EncodeAll(ms)) == Parsed(ms, []) && NoNegative(EncodeAll(ms))
  {
    if ms != [] {
      RoundTrip(ms[1..]);
      DecodeOneFrame(ms[0], EncodeAll(ms[1..]));
    }
  }

  lemma HeadFrame(s: Bytes)
    requires Complete(s) && NoNegative(s)
    ensures |s[4..4 + Declared(s)]| < TWO_31 && s[..4 + Declared(s)] == Frame(s[4..4 + Declared(s)])
  {
    BytesRoundTrip(s[..4]);
    assert s[..4 + Declared(s)] == s[..4] + s[4..4 + Declared(s)];
  }

  /** Nothing is lost or invented: the messages' frames and the tail are the stream. */
  lemma {:induction false} DecodeConserves(s: Bytes)
    requires NoNegative(s)
    ensures Sendable(Decode(s).messages) && EncodeAll(Decode(s).messages) + Decode(s).rest == s
    decreases |s|
  {
    if Complete(s) {
      var n := 4 + Declared(s);
      HeadFrame(s);
      DecodeHead(s, n);
      NegativeTail(s, n);
      hide Decode, NoNegative, Declared, Frame, EncodeAll, Sendable, FromLe32;
      DecodeConserves(s[n..]);
      PushFront(s[4..n], Decode(s[n..]).messages, Decode(s[n..]).rest);
      assert s == s[..n] + s[n..];
    } else {
      assert Decode(s) == Parsed([], s) && EncodeAll([]) + s == s;
    }
  }

  lemma NegativeTail(s: Bytes, n: nat)
    requires Complete(s) && NoNegative(s) && n == 4 + Declared(s)
    ensures NoNegative(s[n..])
  {
  }

  lemma PushFront(m: Bytes, ms: seq<Bytes>, t: Bytes)
    requires |m| < TWO_31 && Sendable(ms)
    ensures Sendable([m] + ms) && EncodeAll([m] + ms) + t == Frame(m) + (EncodeAll(ms) + t)
  {
    assert ([m] + ms)[1..] == ms;
  }

  /** If one list's encoding is a prefix of another's, the list is a prefix of the other. */
  lemma PrefixFree(a: seq<Bytes>, b: seq<Bytes>)
    requires Sendable(a) && Sendable(b) && EncodeAll(a) <= EncodeAll(b)
    ensures a <= b
  {
    var t := EncodeAll(b)[|EncodeAll(a)|..];
    assert EncodeAll(a) + t == EncodeAll(b);
    RoundTrip(a);
    RoundTrip(b);
    DecodeResumes(EncodeAll(a), t);
    assert [] + t == t;
  }

  lemma {:induction false} EncodeConcat(a: seq<Bytes>, b: seq<Bytes>)
    requires Sendable(a) && Sendable(b)
    ensures Sendable(a + b) && EncodeAll(a + b) == EncodeAll(a) + EncodeAll(b)
  {
    hide Frame;
    if a == [] {
      assert a + b == b;
    } else {
      EncodeConcat(a[1..], b);
      assert (a + b)[1..] == a[1..] + b;
      assert Frame(a[0]) + (EncodeAll(a[1..]) + EncodeAll(b)) == EncodeAll(a) + EncodeAll(b);
    }
  }

  /** A length with its top bit set counts as more bytes than a stream can have, so no message that is complete
      has such a length. */
  lemma {:induction false} MessagesShort(s: Bytes)
    requires |s| < HUGE
    ensures Sendable(Decode(s).messages)
    decreases |s|
  {
    if Complete(s) {
      var n := Declared(s);
      assert n < TWO_31;
      MessagesShort(s[4 + n..]);
      hide Complete, Declared;
      SendableCons(s[4..4 + n], Decode(s[4 + n..]).messages);
    }
  }

  lemma SendableCons(m: Bytes, ms: seq<Bytes>)
    requires |m| < TWO_31 && Sendable(ms)
    ensures Sendable([m] + ms)
  {
  }

  // ---------- Many chunks ----------

  lemma SliceOn(data: Bytes, read: nat, taken: nat)
    requires read + taken <= |data|
    ensures data[..read] + data[read..][..taken] == data[..read + taken]
  {
  }

  function Flatten(chunks: seq<Bytes>): Bytes {
    if chunks == [] then [] else Flatten(chunks[..|chunks| - 1]) + chunks[|chunks| - 1]
  }

  /** What a decoder that is fed chunk by chunk has produced, and holds on to. */
  function Feed(chunks: seq<Bytes>): Parsed {
    if chunks == [] then Parsed([], [])
    else
      var before := Feed(chunks[..|chunks| - 1]);
      var now := Decode(before.rest + chunks[|chunks| - 1]);
      Parsed(before.messages + now.messages, now.rest)
  }

  /** Fragmentation never matters. */
  lemma {:induction false} FragmentationIrrelevant(chunks: seq<Bytes>)
    ensures Feed(chunks) == Decode(Flatten(chunks))
  {
    if chunks != [] {
      var front := chunks[..|chunks| - 1];
      FragmentationIrrelevant(front);
      DecodeResumes(Flatten(front), chunks[|chunks| - 1]);
    }
  }

  // ---------- One unit at a time ----------

  /** The tail holds part of a length field or an announced but incomplete message. */
  lemma TailIncomplete(s: Bytes)
    ensures Decode(Decode(s).rest) == Parsed([], Decode(s).rest)
  {
    DecodeResumes(s, []);
    assert s + [] == s && Decode(s).rest + [] == Decode(s).rest;
    var again := Decode(Decode(s).rest);
    assert |Decode(s).messages| == |Decode(s).messages + again.messages|;
  }

  /** The length field a decoder has seen when it holds this int32_t. */
  function Header(next: int): (b: Bytes)
    requires 0 - TWO_31 <= next < TWO_31
  {
    Le32(if next >= 0 then next else TWO_32 + next)
  }

  /** The four bytes reinterpreted as an int32_t: on no account zero unless they are all zero. */
  function ToInt32(b: Bytes): (i: int)
    requires |b| == 4
    ensures 0 - TWO_31 <= i < TWO_31
    ensures i != 0 ==> AsSize(i) > 0
  {
    Signed(FromLe32(b))
  }

  lemma LengthRead(b: Bytes)
    requires |b| <= 4
    ensures |b| < 4 ==> Decode(b) == Parsed([], b)
    ensures |b| == 4 ==>
              var next := ToInt32(b);
              && Header(next) == b
              && (next == 0 ==> Decode(b) == Parsed([[]], []))
              && (next != 0 ==> Decode(b) == Parsed([], Header(next)))
  {
    if |b| == 4 {
      BytesRoundTrip(b);
      assert b[..4] == b;
      if Declared(b) == 0 { assert b[4..4] == [] && b[4..] == []; }
    }
  }

  lemma HeaderDeclares(next: int, body: Bytes)
    requires 0 - TWO_31 <= next < TWO_31
    ensures var s := Header(next) + body;
            |Header(next)| == 4 && s[..4] == Header(next) && s[4..] == body && Declared(s) == AsSize(next)
  {
    var u := if next >= 0 then next else TWO_32 + next;
    LengthRoundTrip(u);
    var h := Header(next);
    assert |h| == 4 && (h + body)[..4] == h;
    hide Le32, FromLe32;
  }

  lemma BodyRead(next: int, body: Bytes)
    requires 0 - TWO_31 <= next < TWO_31 && |body| <= AsSize(next)
    ensures |Header(next)| == 4
    ensures Decode(Header(next) + body)
         == if |body| < AsSize(next) then Parsed([], Header(next) + body) else Parsed([body], [])
  {
    hide Header, Declared, AsSize;
    HeaderDeclares(next, body);
    var s := Header(next) + body;
    if |body| == AsSize(next) {
      assert s[4..4 + |body|] == body && s[4 + |body|..] == [];
    }
  }
}
