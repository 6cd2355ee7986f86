/** Streaming active.log to a lagging peer: the chunk loop of internal/consensus/service/add.go and the chunk assembly
    of internal/consensus/filesystem/snapshot.go. */
module SnapshotTransfer {
  import opened Codec
  import opened LogStore
  import opened Wrappers

  const CHUNK_SIZE := 64 * 1024

  datatype Chunk = Chunk(offset: nat, data: seq<byte>, done: bool, lastIndex: int, lastTerm: int)

  /** The follower ignores a later chunk of a transfer that it never saw begin. */
  function Deliver(d: Disk, c: Chunk): Disk {
    match DiskInstall(d, c.offset, c.data, c.done, c.lastIndex, c.lastTerm)
    case Some(installed) => installed
    case None => d
  }

  function DeliverFirst(d: Disk, sent: seq<Chunk>, n: nat): Disk
    requires n <= |sent|
  {
    if n == 0 then d else Deliver(DeliverFirst(d, sent, n - 1), sent[n - 1])
  }

  function DeliverAll(d: Disk, sent: seq<Chunk>): Disk {
    DeliverFirst(d, sent, |sent|)
  }

  /** How much of the file the first `n` chunks of a transfer have covered. */
  function Covered(sent: seq<Chunk>, n: nat): nat
    requires n <= |sent|
  {
    if n == 0 then 0 else sent[n - 1].offset + |sent[n - 1].data|
  }

  /** Chunk `i` continues where the last one ended, and is the last one exactly when it reaches the end of the file. */
  ghost predicate Follows(src: seq<byte>, sent: seq<Chunk>, i: nat)
    requires i < |sent|
  {
    && sent[i].offset == Covered(sent, i)
    && sent[i].data != []
    && Covered(sent, i + 1) <= |src|
    && sent[i].data == src[sent[i].offset..Covered(sent, i + 1)]
    && (sent[i].done <==> Covered(sent, i + 1) == |src|)
  }

  /** What the chunk loop may have sent when it stops: any positive read sizes, any point of abandonment. */
  ghost predicate Sent(src: seq<byte>, sent: seq<Chunk>, lastIndex: int, lastTerm: int) {
    && (forall i :: 0 <= i < |sent| ==> Follows(src, sent, i))
    && (forall i :: 0 <= i < |sent| ==> sent[i].lastIndex == lastIndex && sent[i].lastTerm == lastTerm)
  }

  ghost predicate Complete(src: seq<byte>, sent: seq<Chunk>) {
    Covered(sent, |sent|) == |src|
  }

  /** `done` is sent on the last chunk of a complete transfer and on no other. */
  lemma DoneOnceAndLast(src: seq<byte>, sent: seq<Chunk>, lastIndex: int, lastTerm: int, i: nat)
    requires Sent(src, sent, lastIndex, lastTerm) && i < |sent|
    ensures sent[i].done <==> i == |sent| - 1 && Complete(src, sent)
  {
    assert Follows(src, sent, i);
    if i + 1 < |sent| {
      assert Follows(src, sent, i + 1);
    }
  }

  lemma WriteAtEnd(file: seq<byte>, data: seq<byte>)
    ensures WriteAt(file, |file|, data) == file + data
  {
  }

  lemma {:induction false} PartialTransfer(d: Disk, src: seq<byte>, sent: seq<Chunk>, lastIndex: int, lastTerm: int,
                                             n: nat)
    requires Sent(src, sent, lastIndex, lastTerm) && 0 < n <= |sent| && Covered(sent, n) < |src|
    ensures DeliverFirst(d, sent, n) == d.(temp := Some(src[..Covered(sent, n)]))
  {
    assert Follows(src, sent, n - 1);
    if n > 1 {
      PartialTransfer(d, src, sent, lastIndex, lastTerm, n - 1);
      WriteAtEnd(src[..Covered(sent, n - 1)], sent[n - 1].data);
      assert src[..Covered(sent, n)] == src[..Covered(sent, n - 1)] + sent[n - 1].data;
    } else {
      assert [] + sent[0].data == src[..Covered(sent, 1)];
      assert DeliverFirst(d, sent, 0) == d;
    }
  }

  /** Whatever the follower's temporary file held before, from any number of abandoned transfers, one complete transfer
      of a file leaves its active.log byte-equal to the source and its log at the snapshot's boundary, and removes the
      temporary file. That takes a non-empty file: an empty one is never sent, and the follower stays as it was. */
  lemma TransferIsLossless(d: Disk, src: seq<byte>, sent: seq<Chunk>, lastIndex: int, lastTerm: int)
    requires Sent(src, sent, lastIndex, lastTerm) && Complete(src, sent)
    ensures src != [] ==>
              DeliverAll(d, sent) == Rewrite(d, Install(lastIndex, lastTerm)).(snapshot := src, temp := None)
    ensures src == [] ==> sent == [] && DeliverAll(d, sent) == d
  {
    if sent != [] {
      var n := |sent| - 1;
      assert Follows(src, sent, n);
      assert src[..|src|] == src;
      if n > 0 {
        assert Follows(src, sent, n - 1);
        PartialTransfer(d, src, sent, lastIndex, lastTerm, n);
        WriteAtEnd(src[..Covered(sent, n)], sent[n].data);
        assert src == src[..Covered(sent, n)] + sent[n].data;
      } else {
        assert [] + sent[0].data == src;
        assert DeliverFirst(d, sent, 0) == d;
      }
    }
  }

  /** sendSnapshotToPeer. Each read returns some positive number of bytes; the context may end, the call may fail or a
      higher term may be seen before any chunk, which abandons the transfer. */
  method SendSnapshotToPeer(src: seq<byte>, peer: Handler, lastIndex: int, lastTerm: int)
    returns (ok: bool, sent: seq<Chunk>)
    requires peer.Valid()
    modifies peer
    ensures peer.Valid() && peer.OnDisk() == DeliverAll(old(peer.OnDisk()), sent)
    ensures Sent(src, sent, lastIndex, lastTerm)
    ensures ok ==> Complete(src, sent)
  {
    sent := [];
    var offset := 0;
    while offset < |src|
      invariant peer.Valid() && peer.OnDisk() == DeliverAll(old(peer.OnDisk()), sent)
      invariant offset == Covered(sent, |sent|) <= |src|
      invariant Sent(src, sent, lastIndex, lastTerm)
    {
      if * {
        return false, sent;
      }
      var bytesRead :| 0 < bytesRead <= CHUNK_SIZE && offset + bytesRead <= |src|;
      var done := offset + bytesRead >= |src|;
      var data := src[offset..offset + bytesRead];
      var installed := peer.InstallSnapshot(offset, data, done, lastIndex, lastTerm);
      var c := Chunk(offset, data, done, lastIndex, lastTerm);
      ContinueTransfer(old(peer.OnDisk()), src, sent, c);
      sent := sent + [c];
      offset := offset + bytesRead;
    }
    ok := true;
  }

  /** The next chunk of a transfer that started on disk `d`. */
  lemma ContinueTransfer(d: Disk, src: seq<byte>, sent: seq<Chunk>, c: Chunk)
    requires Sent(src, sent, c.lastIndex, c.lastTerm) && c.offset == Covered(sent, |sent|) && c.data != []
    requires c.offset + |c.data| <= |src| && c.data == src[c.offset..c.offset + |c.data|]
    requires c.done <==> c.offset + |c.data| == |src|
    ensures Sent(src, sent + [c], c.lastIndex, c.lastTerm)
    ensures Covered(sent + [c], |sent| + 1) == c.offset + |c.data|
    ensures DeliverAll(d, sent + [c]) == Deliver(DeliverAll(d, sent), c)
  {
    forall i | 0 <= i < |sent| ensures Follows(src, sent + [c], i) {
      FollowsStill(src, sent, c, i);
    }
    DeliverPrefix(d, sent, c, |sent|);
  }

  lemma FollowsStill(src: seq<byte>, sent: seq<Chunk>, c: Chunk, i: nat)
    requires i < |sent| && Follows(src, sent, i)
    ensures Follows(src, sent + [c], i)
  {
    assert Covered(sent + [c], i) == Covered(sent, i) && Covered(sent + [c], i + 1) == Covered(sent, i + 1);
  }

  lemma {:induction false} DeliverPrefix(d: Disk, sent: seq<Chunk>, c: Chunk, n: nat)
    requires n <= |sent|
    ensures DeliverFirst(d, sent + [c], n) == DeliverFirst(d, sent, n)
  {
    if n > 0 {
      DeliverPrefix(d, sent, c, n - 1);
    }
  }
}
