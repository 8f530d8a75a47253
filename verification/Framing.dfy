/** Replies of the command line server and the marker that ends them (munet/cli.py). */
module Framing {

  newtype Byte = x: int | 0 <= x < 256

  type Bytes = seq<Byte>

  const ENDMARKER: Bytes := [0, 69, 78, 68, 0]  // NUL "END" NUL

  predicate EndsWith(b: Bytes, sentinel: Bytes) {
    |b| >= |sentinel| && b[|b| - |sentinel|..] == sentinel
  }

  function Concat(parts: seq<Bytes>): Bytes {
    if parts == [] then [] else parts[0] + Concat(parts[1..])
  }

  /** What the server writes for one command: the pieces of the reply, then the marker. */
  function Written(reply: Bytes): Bytes {
    reply + ENDMARKER
  }

  /** The reply loop of `cli_client_connected` for one command. */
  method WriteReply(pieces: seq<Bytes>) returns (stream: Bytes)
    ensures stream == Written(Concat(pieces))
  {
    stream := [];
    for k := 0 to |pieces|
      invariant stream + Concat(pieces[k..]) == Concat(pieces)
    {
      assert pieces[k..][1..] == pieces[k + 1..];
      assert stream + (pieces[k] + Concat(pieces[k + 1..])) == stream + pieces[k] + Concat(pieces[k + 1..]);
      stream := stream + pieces[k];
    }
    stream := stream + ENDMARKER;
  }

  /** The receive loop of `cli_client`: what it prints and the chunks it has not received, or
      Closed when a receive returns nothing. */
  datatype Received = Received(text: Bytes, rest: seq<Bytes>) | Closed

  function Collect(rb: Bytes, chunks: seq<Bytes>): Received
    decreases |chunks|
  {
    if EndsWith(rb, ENDMARKER) then Received(rb[..|rb| - |ENDMARKER|], chunks)
    else if chunks == [] || chunks[0] == [] then Closed
    else Collect(rb + chunks[0], chunks[1..])
  }

  method CollectReply(chunks: seq<Bytes>) returns (r: Received)
    ensures r == Collect([], chunks)
  {
    var rb: Bytes := [];
    var k := 0;
    while !(|rb| >= |ENDMARKER| && rb[|rb| - |ENDMARKER|..] == ENDMARKER)
      invariant 0 <= k <= |chunks|
      invariant Collect(rb, chunks[k..]) == Collect([], chunks)
      decreases |chunks| - k
    {
      if k == |chunks| || chunks[k] == [] {
        return Closed;
      }
      rb := rb + chunks[k];
      assert chunks[k..][1..] == chunks[k + 1..];
      k := k + 1;
    }
    r := Received(rb[..|rb| - |ENDMARKER|], chunks[k..]);
  }

  // ---------- replies that frame themselves ----------

  predicate At(b: Bytes, part: Bytes, i: int) {
    0 <= i <= |b| - |part| && b[i..i + |part|] == part
  }

  predicate Contains(b: Bytes, part: Bytes) {
    exists i :: 0 <= i <= |b| && At(b, part, i)
  }

  /** The reply neither holds the marker nor ends with all of it but its last byte. */
  predicate Clean(reply: Bytes) {
    !Contains(reply, ENDMARKER) && !EndsWith(reply, ENDMARKER[..4])
  }

  /** Before all of the reply and the marker is there, nothing looks like the end. */
  predicate NoEarlyEnd(reply: Bytes) {
    forall n :: 0 <= n < |Written(reply)| ==> !EndsWith(Written(reply)[..n], ENDMARKER)
  }

  /** In bytes: no NUL "END" NUL anywhere, and no NUL "END" at the end. */
  lemma {:induction false} CleanWritten(reply: Bytes)
    ensures Clean(reply) <==>
            && (forall a: Bytes, b: Bytes :: reply != a + [0, 69, 78, 68, 0] + b)
            && (forall a: Bytes :: reply != a + [0, 69, 78, 68])
  {
    assert ENDMARKER[..4] == [0, 69, 78, 68];
    forall a: Bytes, b: Bytes | reply == a + [0, 69, 78, 68, 0] + b
      ensures Contains(reply, ENDMARKER)
    {
      assert reply[|a|..|a| + 5] == ENDMARKER;
      assert At(reply, ENDMARKER, |a|);
    }
    forall a: Bytes | reply == a + [0, 69, 78, 68]
      ensures EndsWith(reply, ENDMARKER[..4])
    {
    }
    if Contains(reply, ENDMARKER) {
      var i :| 0 <= i <= |reply| && At(reply, ENDMARKER, i);
      assert |ENDMARKER| == 5 && reply == reply[..i] + [0, 69, 78, 68, 0] + reply[i + 5..];
    }
    if EndsWith(reply, ENDMARKER[..4]) {
      assert reply == reply[..|reply| - 4] + [0, 69, 78, 68];
    }
  }

  /** The only way the marker overlaps itself is in its NUL. */
  lemma {:induction false} CleanIffNoEarlyEnd(reply: Bytes)
    ensures Clean(reply) <==> NoEarlyEnd(reply)
  {
    if !NoEarlyEnd(reply) {
      var n :| 0 <= n < |Written(reply)| && EndsWith(Written(reply)[..n], ENDMARKER);
      EarlyEndIsUnclean(reply, n);
    }
    if !Clean(reply) {
      UncleanEndsEarly(reply);
    }
  }

  lemma {:induction false} UncleanEndsEarly(reply: Bytes)
    requires !Clean(reply)
    ensures !NoEarlyEnd(reply)
  {
    var s := Written(reply);
    if Contains(reply, ENDMARKER) {
      var i :| 0 <= i <= |reply| && At(reply, ENDMARKER, i);
      assert |ENDMARKER| == 5;
      assert s[..i + 5][i..] == reply[i..i + 5];
      assert EndsWith(s[..i + 5], ENDMARKER);
    } else {
      var n := |reply| + 1;
      assert s[..n] == reply + [0];
      assert s[..n][n - 5..] == ENDMARKER[..4] + [0] == ENDMARKER;
      assert EndsWith(s[..n], ENDMARKER);
    }
  }

  lemma {:induction false} EarlyEndIsUnclean(reply: Bytes, n: nat)
    requires n < |Written(reply)| && EndsWith(Written(reply)[..n], ENDMARKER)
    ensures !Clean(reply)
  {
    var s := Written(reply);
    var i := n - 5;
    assert s[..n][i..] == s[i..n] == ENDMARKER;
    assert s[n - 1] == s[i..n][4] == 0;
    if n <= |reply| {
      assert reply[i..i + 5] == s[i..n];
      assert At(reply, ENDMARKER, i);
    } else {
      assert s[n - 1] == ENDMARKER[n - 1 - |reply|];
      assert n == |reply| + 1;
      assert reply[|reply| - 4..] == s[i..n][..4];
    }
  }

  lemma {:induction false} NulFreeIsClean(reply: Bytes)
    requires 0 !in reply
    ensures Clean(reply)
  {
    forall i | 0 <= i <= |reply|
      ensures !At(reply, ENDMARKER, i)
    {
      assert i + 5 <= |reply| ==> reply[i..i + 5][0] in reply;
    }
    assert |reply| >= 4 ==> reply[|reply| - 4..][0] in reply;
  }

  // ---------- one exchange ----------

  const RECV_SIZE := 4096

  /** The chunks the bytes can be received in. */
  predicate Chunking(chunks: seq<Bytes>, b: Bytes) {
    && Concat(chunks) == b
    && forall c :: c in chunks ==> 0 < |c| <= RECV_SIZE
  }

  /** Without an early end the receive loop stops after exactly the chunks of the reply. */
  lemma {:induction false} CollectExact(reply: Bytes, rb: Bytes, chunks: seq<Bytes>, rest: seq<Bytes>)
    requires NoEarlyEnd(reply) && rb + Concat(chunks) == Written(reply)
    requires forall c :: c in chunks ==> 0 < |c|
    ensures Collect(rb, chunks + rest) == Received(reply, rest)
    decreases |chunks|
  {
    if chunks == [] {
      assert rb == Written(reply);
      assert rb[|rb| - 5..] == ENDMARKER && rb[..|rb| - 5] == reply;
      assert chunks + rest == rest;
    } else {
      assert chunks[0] in chunks;
      assert rb == Written(reply)[..|rb|];
      assert rb + chunks[0] + Concat(chunks[1..]) == rb + (chunks[0] + Concat(chunks[1..]));
      assert (chunks + rest)[1..] == chunks[1..] + rest;
      CollectExact(reply, rb + chunks[0], chunks[1..], rest);
    }
  }

  /** With none of the first chunks does what was received end with the marker. */
  predicate NeverEnds(rb: Bytes, chunks: seq<Bytes>, k: nat)
    requires k <= |chunks|
  {
    forall i :: 0 <= i <= k ==> !EndsWith(rb + Concat(chunks[..i]), ENDMARKER)
  }

  lemma {:induction false} OneChunkMore(rb: Bytes, chunks: seq<Bytes>, i: nat)
    requires 0 < i <= |chunks|
    ensures rb + Concat(chunks[..i]) == rb + chunks[0] + Concat(chunks[1..][..i - 1])
  {
    assert chunks[..i][1..] == chunks[1..][..i - 1];
    assert rb + (chunks[0] + Concat(chunks[1..][..i - 1])) == rb + chunks[0] + Concat(chunks[1..][..i - 1]);
  }

  lemma {:induction false} NeverEndsNext(rb: Bytes, chunks: seq<Bytes>, k: nat)
    requires 0 < k <= |chunks|
    ensures NeverEnds(rb, chunks, k) <==> !EndsWith(rb, ENDMARKER) && NeverEnds(rb + chunks[0], chunks[1..], k - 1)
  {
    assert rb + Concat(chunks[..0]) == rb;
    if NeverEnds(rb, chunks, k) {
      forall i | 0 <= i <= k - 1
        ensures !EndsWith(rb + chunks[0] + Concat(chunks[1..][..i]), ENDMARKER)
      {
        OneChunkMore(rb, chunks, i + 1);
      }
    }
    if !EndsWith(rb, ENDMARKER) && NeverEnds(rb + chunks[0], chunks[1..], k - 1) {
      forall i | 0 <= i <= k
        ensures !EndsWith(rb + Concat(chunks[..i]), ENDMARKER)
      {
        if i > 0 {
          OneChunkMore(rb, chunks, i);
        }
      }
    }
  }

  /** The client gives up without printing exactly when the connection ends, with a receive that
      returns nothing, before anything received so far ends with the marker. */
  lemma {:induction false} ClosedIff(rb: Bytes, chunks: seq<Bytes>, k: nat)
    requires k <= |chunks| && (k < |chunks| ==> chunks[k] == [])
    requires forall i :: 0 <= i < k ==> chunks[i] != []
    ensures Collect(rb, chunks).Closed? <==> NeverEnds(rb, chunks, k)
    decreases k
  {
    if k == 0 {
      assert rb + Concat(chunks[..0]) == rb;
    } else {
      NeverEndsNext(rb, chunks, k);
      if !EndsWith(rb, ENDMARKER) {
        assert chunks[0] != [];
        assert k < |chunks| ==> chunks[1..][k - 1] == [];
        ClosedIff(rb + chunks[0], chunks[1..], k - 1);
      }
    }
  }

  function Bytewise(b: Bytes): seq<Bytes> {
    if b == [] then [] else [b[..1]] + Bytewise(b[1..])
  }

  lemma {:induction false} BytewiseChunks(b: Bytes)
    ensures Chunking(Bytewise(b), b)
  {
    if b != [] {
      BytewiseChunks(b[1..]);
      assert b[..1] + b[1..] == b;
      assert Bytewise(b)[1..] == Bytewise(b[1..]);
    }
  }

  /** The first of the remaining bytes is received. */
  lemma {:induction false} ByteNext(s: Bytes, k: nat, rest: seq<Bytes>)
    requires k < |s|
    ensures var chunks := Bytewise(s[k..]) + rest;
            && chunks != [] && chunks[0] != [] && s[..k] + chunks[0] == s[..k + 1]
            && chunks[1..] == Bytewise(s[k + 1..]) + rest
  {
    var t := s[k..];
    assert t[1..] == s[k + 1..] && Bytewise(t) == [t[..1]] + Bytewise(t[1..]);
    assert s[..k] + t[..1] == s[..k + 1];
    assert (Bytewise(t) + rest)[1..] == Bytewise(t[1..]) + rest;
  }

  /** Received byte by byte, a reply with an early end is cut short. */
  lemma {:induction false} CollectShort(reply: Bytes, k: nat, n: nat, rest: seq<Bytes>)
    requires k <= n < |Written(reply)| && EndsWith(Written(reply)[..n], ENDMARKER)
    ensures var r := Collect(Written(reply)[..k], Bytewise(Written(reply)[k..]) + rest);
            r.Received? && |r.text| < |reply|
    decreases n - k
  {
    var s := Written(reply);
    if !EndsWith(s[..k], ENDMARKER) {
      ByteNext(s, k, rest);
      CollectShort(reply, k + 1, n, rest);
    }
  }

  // ---------- a session ----------

  /** What the client prints over a session. The server sends reply i, cut into the chunks
      `cuts[i]`, after it received command i; `left` are the chunks the client left behind. */
  function Printed(left: seq<Bytes>, cuts: seq<seq<Bytes>>): seq<Bytes>
    decreases |cuts|
  {
    if cuts == [] then
      []
    else
      match Collect([], left + cuts[0])
      case Closed => []
      case Received(text, rest) => [text] + Printed(rest, cuts[1..])
  }

  predicate Cut(cuts: seq<seq<Bytes>>, replies: seq<Bytes>) {
    |cuts| == |replies| && forall i :: 0 <= i < |cuts| ==> Chunking(cuts[i], Written(replies[i]))
  }

  predicate AllClean(replies: seq<Bytes>) {
    forall i :: 0 <= i < |replies| ==> Clean(replies[i])
  }

  lemma {:induction false} CleanSession(replies: seq<Bytes>, cuts: seq<seq<Bytes>>)
    requires AllClean(replies) && Cut(cuts, replies)
    ensures Printed([], cuts) == replies
    decreases |replies|
  {
    if replies != [] {
      CleanIffNoEarlyEnd(replies[0]);
      CollectExact(replies[0], [], cuts[0], []);
      assert [] + cuts[0] == cuts[0] + [];
      CleanSession(replies[1..], cuts[1..]);
    }
  }

  function AllBytewise(replies: seq<Bytes>): (cuts: seq<seq<Bytes>>)
    ensures |cuts| == |replies|
  {
    seq(|replies|, i requires 0 <= i < |replies| => Bytewise(Written(replies[i])))
  }

  /** The first reply of a session of unclean ones is cut short. */
  lemma {:induction false} UncleanFirst(reply: Bytes)
    requires !Clean(reply)
    ensures var r := Collect([], Bytewise(Written(reply)));
            r.Received? && r.text != reply
  {
    var s := Written(reply);
    CleanIffNoEarlyEnd(reply);
    var n :| 0 <= n < |s| && EndsWith(s[..n], ENDMARKER);
    CollectShort(reply, 0, n, []);
    assert s[..0] == [] && s[0..] == s && Bytewise(s) + [] == Bytewise(s);
  }

  lemma {:induction false} CleanFirst(reply: Bytes)
    requires Clean(reply)
    ensures Collect([], Bytewise(Written(reply))) == Received(reply, [])
  {
    CleanIffNoEarlyEnd(reply);
    BytewiseChunks(Written(reply));
    CollectExact(reply, [], Bytewise(Written(reply)), []);
    assert Bytewise(Written(reply)) + [] == Bytewise(Written(reply));
  }

  lemma {:induction false} UncleanSession(replies: seq<Bytes>)
    requires !AllClean(replies)
    ensures Printed([], AllBytewise(replies)) != replies
    decreases |replies|
  {
    var reply, cuts := replies[0], AllBytewise(replies);
    assert [] + cuts[0] == Bytewise(Written(reply));
    if Clean(reply) {
      CleanFirst(reply);
      assert cuts[1..] == AllBytewise(replies[1..]);
      UncleanSession(replies[1..]);
      assert Printed([], cuts)[1..] == Printed([], cuts[1..]);
    } else {
      UncleanFirst(reply);
      assert Printed([], cuts)[0] != reply;
    }
  }

  /** Every way of cutting the stream into chunks makes the client print exactly the replies, in
      order, if and only if every reply is clean. */
  lemma {:induction false} SessionIffClean(replies: seq<Bytes>)
    ensures (forall cuts :: Cut(cuts, replies) ==> Printed([], cuts) == replies) <==> AllClean(replies)
  {
    if AllClean(replies) {
      forall cuts | Cut(cuts, replies)
        ensures Printed([], cuts) == replies
      {
        CleanSession(replies, cuts);
      }
    } else {
      var cuts := AllBytewise(replies);
      forall i | 0 <= i < |cuts|
        ensures Chunking(cuts[i], Written(replies[i]))
      {
        BytewiseChunks(Written(replies[i]));
      }
      assert Cut(cuts, replies);
      UncleanSession(replies);
    }
  }
}
