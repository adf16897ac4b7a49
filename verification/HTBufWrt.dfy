// HTBufWrt.c: the buffered writer loses, repeats and reorders nothing, whatever its target answers.
module HTBufWrt {
  type byte = x: int | 0 <= x < 256

  datatype Status = HT_OK | HT_WOULD_BLOCK | HT_ERROR

  // The stream behind the buffer.  It takes a block as a whole, or refuses it with HT_WOULD_BLOCK,
  // or fails and takes nothing; it does not fail for ever.
  class Target {
    ghost var sent: seq<byte>
    ghost var refusals: nat  // of either kind, so far
    var failuresLeft: nat

    constructor ()
      ensures sent == [] && refusals == 0
    {
      sent, refusals := [], 0;
      failuresLeft := *;
    }

    method PutBlock(b: seq<byte>) returns (status: Status)
      modifies this
      ensures sent == if status == HT_OK then old(sent) + b else old(sent)
      ensures refusals == old(refusals) + if status == HT_OK then 0 else 1
      ensures status == HT_ERROR ==> failuresLeft < old(failuresLeft)
      ensures status != HT_ERROR ==> failuresLeft == old(failuresLeft)
    {
      status := *;
      if status == HT_OK {
        sent := sent + b;
      } else if status == HT_ERROR {
        if failuresLeft == 0 {
          status := HT_WOULD_BLOCK;
        } else {
          failuresLeft := failuresLeft - 1;
        }
      }
      if status != HT_OK {
        refusals := refusals + 1;
      }
    }
  }

  class BufferWriter {
    const target: Target
    const growby: nat
    var expo: nat
    var data: array<byte>
    var read: nat
    var timer: bool

    ghost predicate Valid()
      reads this
    {
      && growby > 0 && expo > 0
      && read <= data.Length && data.Length > 0
    }

    ghost function Buffered(): seq<byte>
      requires Valid()
      reads this, data
    {
      data[..read]
    }

    // Everything written so far, as the far end will see it.
    ghost function Stream(): seq<byte>
      requires Valid()
      reads this, data, target
    {
      target.sent + Buffered()
    }

    // buffer_new and HTBufferConverter_new, for a positive buffer size.
    constructor (target: Target, bufsize: nat)
      requires bufsize > 0
      ensures Valid() && fresh(data) && this.target == target && growby == bufsize
      ensures Buffered() == [] && !timer
    {
      this.target, growby, expo := target, bufsize, 1;
      data, read, timer := new byte[bufsize](_ => 0), 0, false;
    }

    // memcpy(me->read, b, |b|); me->read += |b|
    method Append(b: seq<byte>)
      requires Valid() && |b| <= data.Length - read
      modifies this`read, data
      ensures Valid() && data == old(data)
      ensures Buffered() == old(Buffered()) + b
    {
      forall i | 0 <= i < |b| {
        data[read + i] := b[i];
      }
      assert data[..read] == old(data[..read]);
      assert data[read..read + |b|] == b;
      read := read + |b|;
    }

    // HTBufferWriter_addBuffer leaves room for addthis more bytes and keeps what is there.
    method AddBuffer(addthis: nat)
      requires Valid()
      modifies this`expo, this`data
      ensures Valid() && fresh(data)
      ensures Buffered() == old(Buffered())
      ensures data.Length >= old(data.Length) + addthis && expo == 2 * old(expo)
      ensures data.Length == old(data.Length) + growby * (addthis / growby + old(expo))
    {
      var size := data.Length + (addthis - addthis % growby + growby * expo);
      assert growby * expo >= growby;
      assert addthis - addthis % growby == growby * (addthis / growby);
      assert growby * (addthis / growby + expo) == growby * (addthis / growby) + growby * expo;
      expo := expo * 2;
      var more := new byte[size](_ => 0);
      forall i | 0 <= i < read {
        more[i] := data[i];
      }
      assert more[..read] == data[..read];
      data := more;
    }

    // HTBufferWriter_flush
    method Flush() returns (status: Status)
      requires Valid()
      modifies this`read, target
      ensures Valid()
      ensures status == HT_OK ==> Stream() == old(Stream()) && Buffered() == []
      ensures status == HT_WOULD_BLOCK ==> target.sent == old(target.sent) && Buffered() == old(Buffered())
      ensures status == HT_ERROR ==> target.sent == old(target.sent) && Buffered() == []
      ensures status == HT_ERROR <==> target.failuresLeft < old(target.failuresLeft)
      ensures target.refusals == old(target.refusals) + if status == HT_OK then 0 else 1
      ensures KeptOrDropped(old(Stream()), old(target.sent), old(target.failuresLeft))
    {
      status := HT_OK;
      if read > 0 {
        status := target.PutBlock(data[..read]);
        if status == HT_WOULD_BLOCK {
          return;
        }
        read := 0;
      }
    }

    // Nothing is lost, unless the target failed: then the whole buffer is.
    ghost predicate KeptOrDropped(stream: seq<byte>, sent: seq<byte>, failuresLeft: nat)
      requires Valid()
      reads this, data, target
    {
      || Stream() == stream
      || (target.failuresLeft < failuresLeft && Buffered() == [] && target.sent == sent)
    }

    // FlushEvent, the timer callback: what the flush answers is ignored.
    method FlushEvent()
      requires Valid()
      modifies this`read, this`timer, target
      ensures Valid() && !timer && data == old(data)
      ensures KeptOrDropped(old(Stream()), old(target.sent), old(target.failuresLeft))
      ensures target.refusals == old(target.refusals) ==> Buffered() == []
    {
      var ignored := Flush();
      timer := false;
    }

    // HTBufferWriter_lazyFlush, which is also the free method: delay is what the host allows, and
    // expired tells whether a timer set earlier has run out.
    method LazyFlush(delay: nat, expired: bool) returns (status: Status)
      requires Valid()
      modifies this`read, this`timer, target
      ensures Valid() && data == old(data)
      ensures KeptOrDropped(old(Stream()), old(target.sent), old(target.failuresLeft))
      ensures status == HT_OK && delay == 0 ==> Buffered() == []
      ensures delay > 0 || target.refusals == old(target.refusals) ==> status == HT_OK
      ensures delay == 0 ==> (status == HT_ERROR <==> target.failuresLeft < old(target.failuresLeft))
      ensures status == HT_WOULD_BLOCK ==> Buffered() == old(Buffered()) && target.sent == old(target.sent)
      ensures old(read) > 0 && delay == 0 ==> timer == (old(timer) && status == HT_OK)
      ensures status == HT_OK && delay > 0 && !(old(timer) && expired) ==> target.sent == old(target.sent)
      ensures old(read) > 0 && delay > 0 ==> timer == !(old(timer) && expired)
      ensures old(timer) && expired && target.refusals == old(target.refusals) ==> Buffered() == []
    {
      if read <= 0 {
        return HT_OK;
      }
      if delay == 0 {
        status := Flush();
        if status != HT_OK && timer {
          timer := false;
        }
        return;
      }
      if !timer {
        timer := true;
      } else if expired {
        FlushEvent();
      }
      status := HT_OK;
    }

    // HTBufferWriter_write.  If no block was refused, at most growby bytes are left to be sent.
    method Write(buf: seq<byte>) returns (r: Status)
      requires Valid()
      modifies this`read, this`expo, this`data, data, target
      ensures Valid() && (data == old(data) || fresh(data))
      ensures Stream() == old(Stream()) + buf
      ensures old(target.sent) <= target.sent
      ensures r != HT_WOULD_BLOCK
      ensures target.refusals >= old(target.refusals)
      ensures target.refusals == old(target.refusals) ==> r == HT_OK && |Buffered()| <= growby
      // a target that is only not ready is no error
      ensures target.failuresLeft == old(target.failuresLeft) ==> r == HT_OK
    {
      var b := buf;
      while |b| > data.Length - read
        invariant Valid() && data == old(data)
        invariant Stream() + b == old(Stream()) + buf && old(target.sent) <= target.sent
        invariant target.refusals >= old(target.refusals) && target.failuresLeft <= old(target.failuresLeft)
        decreases |b|, read == data.Length, target.failuresLeft
      {
        var done;
        b, done := FillAndFlush(b);
        if done {
          return HT_OK;
        }
      }
      r := Keep(b);
    }

    // Lines 175-190: the block fits.
    method Keep(b: seq<byte>) returns (r: Status)
      requires Valid() && |b| <= data.Length - read
      modifies this`read, data, target
      ensures Valid() && Stream() == old(Stream()) + b
      ensures old(target.sent) <= target.sent
      ensures r != HT_WOULD_BLOCK
      ensures target.refusals >= old(target.refusals)
      ensures target.refusals == old(target.refusals) ==> r == HT_OK && |Buffered()| <= growby
      ensures target.failuresLeft <= old(target.failuresLeft)
      ensures r == HT_ERROR <==> target.failuresLeft < old(target.failuresLeft)
    {
      Append(b);
      r := HT_OK;
      assert Stream() == old(Stream()) + b;
      if read > growby {
        var status := target.PutBlock(data[..read]);
        if status == HT_OK {
          read := 0;
        } else {
          r := if status == HT_WOULD_BLOCK then HT_OK else HT_ERROR;
        }
      }
    }

    // Lines 194-199: fill the existing buffer.
    method Fill(b: seq<byte>) returns (rest: seq<byte>)
      requires Valid() && |b| > data.Length - read
      modifies this`read, data
      ensures Valid() && read == data.Length && |rest| == |b| - (data.Length - old(read))
      ensures Stream() + rest == old(Stream()) + b
    {
      var available := data.Length - read;
      rest := b;
      if available > 0 {
        Append(b[..available]);
        rest := b[available..];
      }
      assert b == b[..available] + rest;
      assert Buffered() == old(Buffered()) + b[..available];
    }

    // Lines 191-210: fill the buffer and send it; if the target is not ready, make room for the rest.
    method FillAndFlush(b: seq<byte>) returns (rest: seq<byte>, done: bool)
      requires Valid() && |b| > data.Length - read
      modifies this`read, this`expo, this`data, data, target
      ensures Valid() && old(target.sent) <= target.sent
      ensures target.refusals >= old(target.refusals) && target.failuresLeft <= old(target.failuresLeft)
      ensures done ==> fresh(data) && Stream() == old(Stream()) + b && target.refusals > old(target.refusals)
      ensures !done ==> data == old(data) && Stream() + rest == old(Stream()) + b
      ensures !done && |rest| >= |b| ==>
        |rest| == |b| && old(read) == data.Length
        && (read < data.Length || target.failuresLeft < old(target.failuresLeft))
    {
      rest := Fill(b);
      var status := target.PutBlock(data[..data.Length]);
      done := false;
      if status == HT_OK {
        read := 0;
      } else if status == HT_WOULD_BLOCK {
        AddBuffer(|rest|);
        Append(rest);
        done := true;
      }
    }
  }
}
